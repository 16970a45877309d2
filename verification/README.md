# GoResolver: a verified model

GoResolver is a control panel for DNS, nginx and iptables. Around its database, sockets and external
programs it keeps several small state machines and text transformations. This project states them in
Dafny and proves what they promise.

| area | modules | main results |
|---|---|---|
| DNSSEC denial of existence | `DnsNames`, `Circle`, `Nsec`, `Denial` | `Denial.DenialAgreesWithZone`, `Denial.OnlyOneRecordCovers`, `Denial.NextNamesAreOneCycle` |
| firewall chains and bans | `RuleChains`, `Firewall`, `DDoSRules`, `Fail2Ban`, `ServerConfiguration` | `Fail2Ban.EveryRunIsOrdered`, `Fail2Ban.BannedPacketsAreDropped`, `DDoSRules.ApplyingTwiceIsApplyingOnce` |
| incident synchroniser | `Incidents`, `IncidentListing`, `IncidentMails`, `AnalyticsService` | `Incidents.SyncCleansTheTable`, `IncidentMails.MailLimits` |
| nginx sites | `NginxScanner`, `NginxLines`, `NginxLayout`, `NginxQuoting`, `NginxSites`, `NginxParts`, `NginxReading`, `NginxSearching`, `NginxSockets`, `NginxRoundTrip`, `NginxFixedPoint`, `NginxPrinted`, `NginxImporting` | `NginxFixedPoint.RenderImportRender` |
| login lockout | `Login` | `Login.RateBound`, `Login.FiveAreCompared` |
| probe scheduler | `Status` | `Status.EveryInterleavingIsSafe`, `Status.LastProbeIsShown` |
| error pages | `ErrorPages` | `ErrorPages.ResolveErrorPagesForSite`, `ErrorPages.OrderDoesNotMatter` |
| snapshot cache | `SnapshotCache`, `SnapshotQuery` | `SnapshotCache.HitAnswersSameQuery`, `SnapshotQuery.ConditionsSelect` |
| settings and key text | `Settings`, `Pem` | `Settings.EveryRunKeepsTheKey`, `Pem.RewrappingIsIdempotent` |
| argument tokenizer | `Arguments` | `Arguments.QuotingRoundTrip` |

`Text`, `Sorting` and `Lexicographic` hold what the Go standard library gives all of them: white space,
trimming, splitting, joining, searching, numerals, sorting as "a sorted permutation", and the order of
strings.

Where the code works by changing state step by step, the model does so too: methods with the loops of
the code, classes with its fields, each proved equal to a function of the state before. Theorems about
all inputs and all runs are lemmas about those functions. Tables are maps or sequences, chains are
sequences numbered from 1, the clock is an integer handed in, and what commands, mails and the database
calls of an operation do is a parameter; the calls left out are named at the end.

Some promises hold only under a condition; the condition is then stated exactly, with an input that
shows the failure:

- the 100-row incident window suffices exactly when at most 100 rows are active
  (`Incidents.SyncCleansTheTable`);
- lifting a ban leaves another ban its rule exactly when that ban's comment does not contain the lifted
  one's (`Fail2Ban.LiftingKeepsBackedIff`, `Fail2Ban.UnbanHitsLongerAddress`);
- NODATA agrees with the bitmap exactly when no matching row is stored; a single-record row with empty
  content is reported missing although its type is in the bitmap (`Denial.NoDataIsTruthful`,
  `Denial.EmptyContentIsAnnounced`);
- the canonical chain ascends exactly when no two collected names agree canonically; a row with two dots
  before a trailing space breaks that (`Nsec.SortedNamesAreAChain`, `Nsec.TrailingDotBreaksTheChain`);
- error pages are grouped by file exactly when the grouping keys tell the files apart
  (`ErrorPages.GroupByFile`, `ErrorPages.SharedKeyMisplacesACode`);
- a save keeps "DNSSEC on implies a key, and a key is never blanked" exactly unless it commits a blank key
  for a set one without having been able to read the settings table (`Settings.SaveKeepsTheKey`,
  `Settings.BlankKeySavedUnread`);
- the limit of one accepted open mail per incident is kept throughout a run exactly if each such mail is
  recorded (`IncidentMails.EveryRunOpens`, `IncidentMails.UnrecordedMailGoesOutAgain`);
- equal cache keys mean equal queries exactly for texts that cannot hold the separator
  (`SnapshotCache.KeysDecideIff`);
- re-wrapping a key panics exactly when the end marker starts inside the begin marker
  (`Pem.NormalizeCompactPrivateKeyPem`);
- printing, importing and printing nginx sites again is a fixed point exactly when every site with TLS
  sets both TLS include paths and no printed Cache-Control holds a character that is escaped
  (`NginxFixedPoint.RenderImportRender`, `NginxFixedPoint.NoBreakSpaceIsNotPrintedAgain`).

## Model

| member | source | states |
|---|---|---|
| DnsNames.CompareDnsLabel | cmd/server/main.go:521-543 | The sign of the comparison is the byte-wise order of two labels, and 0 only for equal labels. |
| DnsNames.DnssecCanonicalLess | cmd/server/main.go:494-511 | The two-index loop equals lexicographic order on the reversed label lists of the canonical names. |
| DnsNames.NameTrichotomy | cmd/server/main.go:494-543 | Of two different canonical names exactly one precedes the other; none precedes itself (section 6.1 of RFC 4034). |
| DnsNames.NameTransitive | cmd/server/main.go:494-543 | The canonical order is transitive. |
| DnsNames.NameCongruent | cmd/server/main.go:494-519 | Names that are the same canonically compare the same with every third name. |
| DnsNames.CaseAndDotAreIgnored | cmd/server/main.go:494-519 | Names that differ in case or in one final dot have the same canonical form: the lower-case name with a dot. |
| DnsNames.NameOrderIsWeak | cmd/server/main.go:494-543 | The order meets what `sort.Slice` asks of its comparison, on all strings. |
| DnsNames.AncestorFirst | cmd/server/main.go:494-511 | Every proper ancestor precedes its descendants. |
| DnsNames.InZoneIsDescendant | cmd/server/main.go:758-772 | A plain name in a zone is the apex or a descendant of it. |
| Circle.FindArc | cmd/server/main.go:465-492 | The scan returns the arc of the circular list that holds the queried element, for any comparison. |
| Circle.OnlyOneArc | cmd/server/main.go:465-492 | In an ascending circular list a point comparable to every element lies in exactly one arc: the one the search returns. |
| Circle.ArcAfterFirst | cmd/server/main.go:478-491 | With the first element before the point, the point is after its arc's start and before its end, or the end is the first element. |
| Circle.ArcIsEmpty | cmd/server/main.go:465-492 | No listed element lies strictly inside an arc, the wrapping one included. |
| Circle.WalkIsOneCycle | cmd/server/main.go:465-492 | Following `next` from the first element meets every element exactly once and returns: the spans form one cycle. |
| Nsec.FindNsecSpan | cmd/server/main.go:465-492 | Owner, next and found flag are those of the arc of the query name in the canonical chain. |
| Nsec.QueryZoneNames | cmd/server/main.go:659-696 | The names collected are those of the fold over the rows and the authoritative zone rows, each once, in order. |
| Nsec.NormalizedAlike | cmd/server/main.go:659-696 | A row counts under its lower-case name without a final dot, however it is cased. |
| Nsec.SortedNamesAreAChain | cmd/server/main.go:434-463 | Sorted and made canonical, the names ascend strictly exactly when no two of them have the same canonical form. |
| Nsec.TrailingDotBreaksTheChain | cmd/server/main.go:659-696 | A row that ends in two dots and a space, which the query leaves as it is, next to the plain row makes two equal canonical names: the chain is then not ascending. |
| Nsec.NormalizedRows | cmd/server/main.go:659-696 | Of the two rows of that example, the plain one is normalised to itself and the other to the name with one dot kept. |
| Denial.NsecTypeBitMap | cmd/server/main.go:545-575 | The result is the strictly ascending list of the apex, record, RRSIG and NSEC codes that belong in it. |
| Denial.BitMapUnique | cmd/server/main.go:545-575 | That list is determined by the set of types alone: record order and repeats do not matter (section 4.1.2 of RFC 4034). |
| Denial.BuildNsecProof | cmd/server/main.go:434-463 | The record built has the owner and next of the span, and the bitmap of the owner's record types. |
| Denial.RespondMissingType | cmd/server/main.go:355-365 | An existing name gets NOERROR, any other NXDOMAIN, and only with the DO bit an NSEC record. |
| Denial.HandleDnsQuery | cmd/server/main.go:161-313 | The type dispatch: for each question type the response code, the answers (of the stored rows: the first that matches for A, AAAA and CNAME, all that match in table order for the others; the configured NS and CAA values; the SOA or key at the apex) and when a negative answer and its proof are sent. |
| Denial.StoredAnswers | cmd/server/main.go:698-749 | What the queries yield: the contents at exactly the positions of the matching rows, ascending, or the first of them; nothing when no row matches or the first of a single-record type is empty. |
| Denial.RowIsFoundUnder | cmd/server/main.go:698-749 | A row is found under its lower-case name without the dots at its end, whatever their number. |
| Denial.NxDomainMeansAbsent | cmd/server/main.go:355-365 | NXDOMAIN says that the name is neither the apex nor that of any row. |
| Denial.CleanChain | cmd/server/main.go:434-463 | For a clean zone the sorted names are a strictly ascending chain of exactly the zone's names, and it starts at the apex. |
| Denial.ApexFirst | cmd/server/main.go:434-492 | The apex precedes every other well-formed name in its zone, as names and canonically; that the chain starts there is `Denial.CleanChain`. |
| Denial.SpanCoversNoZoneName | cmd/server/main.go:465-492 | No existing name lies strictly between owner and next of the record sent. |
| Denial.CoversCanonically | cmd/server/main.go:465-492 | Covering means owner before query, and query before next unless next is the apex (section 4.1.1 of RFC 4034). |
| Denial.OnlyOneRecordDenies | cmd/server/main.go:434-492 | Of all arcs of the chain exactly one holds a well-formed name that does not exist: the one of the record sent. |
| Denial.OnlyOneRecordCovers | cmd/server/main.go:434-492 | Of all records of a clean zone's chain, read as owner and next name, exactly one covers a name of its tree that does not exist: the one sent. |
| Denial.NextNamesAreOneCycle | cmd/server/main.go:434-492 | Followed from the apex, next names meet every name of a clean zone once, nothing else, and come back: the records form one cycle. |
| Denial.BitmapTellsTheTypes | cmd/server/main.go:545-575 | A user type is in the owner's bitmap exactly when a record of that type is stored there. |
| Denial.BitmapTellsTheRest | cmd/server/main.go:545-575 | Of the other types SOA and NS are in the bitmap at the apex or where stored, CAA where the server synthesizes it or one is stored, RRSIG and NSEC in a signed zone and DNSKEY at its apex, or where stored. |
| Denial.DenialAgreesWithZone | cmd/server/main.go:355-463 | Owner equals query exactly when the name exists, and then the bitmap tells which types do; it covers the query exactly when the name does not exist, and never covers an existing name. |
| Denial.NoDataIsTruthful | cmd/server/main.go:161-241 | When the handler reports a type missing, the bitmap lacks the type exactly if no row matches; empty content of a single-record type is the one exception. |
| Denial.EmptyContentIsAnnounced | cmd/server/main.go:161-174 | That exception occurs: an A record with empty content at the apex of any zone is reported missing while its type is in the bitmap. |
| Login.LoginService.constructor | internal/services/login_service.go:34-44 | No counters at the start. |
| Login.LoginService.Authenticate | internal/services/login_service.go:46-77 | Result and new counters are those of one step of the specification; what a step does is told by the four rows on its outcomes. |
| Login.LoginService.LoginWait | internal/services/login_service.go:79-100 | The wait is the later of the deadlines of user and address, and never negative. |
| Login.LoginService.RecordLoginFailure | internal/services/login_service.go:102-132 | Both counters and deadlines after a failure, a blocked address only where it can be blocked. |
| Login.StepForKey | internal/services/login_service.go:46-132 | Seen from one key, a step without success either counts one failure or changes nothing. |
| Login.ComparisonsAreSpaced | internal/services/login_service.go:46-132 | In a run without success, comparisons from the blocking one on are at least 24 hours apart. |
| Login.SpacedWindow | internal/services/login_service.go:14-19 | A list whose elements from some index on are a block apart has a bounded number of elements in any window. |
| Login.RateBound | internal/services/login_service.go:46-132 | In any window of length T at most 5 + floor(T / 24h) comparisons for a user (3 + floor(T / 24h) for an address). |
| Login.FiveAreCompared | internal/services/login_service.go:46-132 | The bound is met: five spaced wrong attempts are all compared, or three from an address that can be blocked. |
| Login.OutcomeIs | internal/services/login_service.go:46-100 | Locked exactly while the user or a blockable address waits, for the time that is left after this failure; a success exactly for the right credentials otherwise, with that user; a comparison exactly for a known user. |
| Login.FailureLocks | internal/services/login_service.go:102-132 | After any failure the next attempt for the user, or from a blockable address, is refused for a minute, and from the limit on for 24 hours. |
| Login.SuccessForgets | internal/services/login_service.go:71-74 | After a success both keys are as never tried and every other key is unchanged. |
| Login.SuccessStartsAgain | internal/services/login_service.go:46-132 | From there five spaced wrong passwords are all compared again, or three from an address that can be blocked. |
| Login.CasesAreOneUser | internal/services/login_service.go:46-48 | A user is counted under one key however the name is cased and whatever blanks surround it. |
| Status.StatusMonitor.GetStatus | internal/services/status_monitor.go:116-137 | What is shown is the stored status, or Checking where there is none; a refresh is started when the result is missing or stale. |
| Status.StatusMonitor.ScheduleRefresh | internal/services/status_monitor.go:139-152 | Marks the key and starts one worker, unless one is pending. |
| Status.StatusMonitor.AcquireToken | internal/services/status_monitor.go:153-155 | A worker starts probing only while fewer than 8 probe. |
| Status.StatusMonitor.WriteResult | internal/services/status_monitor.go:157-174 | The new entry: status, online-since and time checked, and the refreshing flag cleared. |
| Status.StatusMonitor.ReleaseToken | internal/services/status_monitor.go:153-175 | A worker that ends gives its token back and holds its probe's result. |
| Status.StepKeepsInv | internal/services/status_monitor.go:116-175 | Every step keeps: flag set exactly when one worker of the key is pending, tokens equal running probes and at most 8, online-since sound. |
| Status.EveryInterleavingIsSafe | internal/services/status_monitor.go:116-175 | The invariant over every interleaving of steps. |
| Status.SafeFromStart | internal/services/status_monitor.go:44-56 | What the invariant says, for every run from the empty monitor. |
| Status.OnlineSinceIsFixed | internal/services/status_monitor.go:157-174 | Online-since stays fixed across consecutive Online results. |
| Status.EverythingCanFinish | internal/services/status_monitor.go:139-175 | From every reachable state some continuation ends all workers: no deadlock on the tokens. |
| Status.ScheduleShows | internal/services/status_monitor.go:139-152 | A key without a result is marked as being checked when its refresh starts; any other keeps what it shows. |
| Status.ProbeIsReported | internal/services/status_monitor.go:153-174 | Whatever happens between a probe's return and its report, the entry then shows Online exactly if the probe answered, with the time of the report, an online-since that is kept or starts now, and no other key changed. |
| Status.LastProbeIsShown | internal/services/status_monitor.go:116-174 | Every reader is told that status until the next report for the key. |
| Incidents.WindowHoldsActive | internal/services/analytics_incidents.go:295-342 | The 100-row listing holds every active row exactly when at most 100 are active, because active rows sort first. |
| Incidents.SyncCleansTheTable | internal/services/analytics_incidents.go:196-271 | After one sync over distinct alerts there is exactly one active row per alert and no other, exactly when at most 100 rows were active. |
| Incidents.MissedRowStays | internal/services/analytics_incidents.go:196-271 | An active row outside the window is active with the same fingerprint after the sync, whatever the alerts are, and the table is not clean. |
| Incidents.OneActivePerAlert | internal/services/analytics_incidents.go:214-254 | When the window shows every active row and alerts are distinct, two rows active after a sync never share a fingerprint. |
| Incidents.AlertHasActive | internal/services/analytics_incidents.go:214-254 | Every alert has an active row of its fingerprint after the sync, in every table: the one the window listed latest seen, if any. |
| Incidents.SyncWritesRows | internal/services/analytics_incidents.go:214-271 | After a complete sync over distinct alerts every alert's incident shows its details and the time, a listed active row without alert is resolved now, and every other row is as it was. |
| Incidents.ActiveIs | internal/services/analytics_incidents.go:161-173 | The incident kept per fingerprint is the active one seen last, the first listed of those on a tie. |
| IncidentListing.ListRows | internal/services/analytics_incidents.go:295-342 | Every row of the table is listed once, with its number, in no particular order. |
| IncidentListing.SortedKeepsListing | internal/services/analytics_incidents.go:295-342 | A permutation of such a listing, as sorting makes one, neither loses nor repeats a row. |
| IncidentMails.SyncedEffect | internal/services/analytics_incidents.go:196-271 | A sync, complete or cut short, removes no row, moves no status back and changes no fingerprint; rows it adds are open and unmailed. |
| IncidentMails.WhyMailed | internal/services/analytics_incidents.go:175-186 | A mail of each kind is tried only for rows in the matching state whose mail was not sent. |
| IncidentMails.ResolutionIsMailed | internal/services/analytics_incidents.go:175-186 | A resolution is mailed exactly if resolution mails are on and the rows read back list the incident. |
| IncidentMails.MailsAreWanted | internal/services/analytics_incidents.go:273-290 | No mail of a kind that is off goes out, and none about an incident that was not touched. |
| IncidentMails.StepKeepsInv | internal/services/analytics_incidents.go:196-381 | Sync, dismissal and deletion keep the limit of one resolved mail, and move statuses forward only, whether mails are recorded or not. |
| IncidentMails.EveryRun | internal/services/analytics_incidents.go:196-381 | Over every run, whatever fails in it, resolved is terminal, dismissed never returns to open, and the resolved-mail limit is kept. |
| IncidentMails.EveryRunOpens | internal/services/analytics_incidents.go:175-293 | Along a run the limit of one accepted open mail about an incident, recorded once sent, holds throughout exactly if every accepted open mail about it is recorded. |
| IncidentMails.MailLimits | internal/services/analytics_incidents.go:273-290 | Over every run from the empty table each incident gets at most one resolved-mail attempt and, if the accepted open mails about it are recorded, at most one of those. |
| IncidentMails.UnrecordedMailGoesOutAgain | internal/services/analytics_incidents.go:273-290 | A run of two syncs whose record fails sends the same open mail twice. |
| IncidentMails.UnsentMailIsTried | internal/services/analytics_incidents.go:175-186 | An open incident without a recorded mail is mailed by the next complete sync in which its alert still fires, if open mails are on and at most 100 rows remain active; it is recorded exactly if accepted and recordable. |
| AnalyticsService.AnalyticsService.Incidents | internal/services/analytics_incidents.go:295-342 | The listing method returns the sorted window of the table. |
| AnalyticsService.AnalyticsService.ActiveIncidentsByFingerprint | internal/services/analytics_incidents.go:161-173 | The map keeps, per fingerprint, the active item seen last. |
| AnalyticsService.AnalyticsService.SyncIncidents | internal/services/analytics_incidents.go:196-293 | Table and mails after the three loops are those of one sync step. |
| AnalyticsService.AnalyticsService.RefreshFromAlerts | internal/services/analytics_incidents.go:214-254 | The loop over alerts inserts or refreshes rows as specified. |
| AnalyticsService.AnalyticsService.ResolveStale | internal/services/analytics_incidents.go:256-271 | The loop over the window resolves every active row no alert named. |
| AnalyticsService.AnalyticsService.SendMails | internal/services/analytics_incidents.go:273-290 | The loop over the touched rows tries exactly the mails due. |
| AnalyticsService.AnalyticsService.DismissIncident | internal/services/analytics_incidents.go:344-357 | Only an open row becomes dismissed; a failing statement changes nothing and is reported. |
| AnalyticsService.AnalyticsService.DeleteIncident | internal/services/analytics_incidents.go:359-381 | A row that is not open is removed, dismissed or resolved; a missing or open row or a failing statement is an error. |
| RuleChains.DeleteFound | internal/services/serverconfiguration_service.go:2157-2188 | Deleting the listed numbers highest first leaves exactly the rules not found, in order, and those whose deletion was refused. |
| RuleChains.MatchingNumbers | internal/services/serverconfiguration_service.go:2157-2175 | The numbers collected are those of the matching rules, ascending. |
| RuleChains.FindLast | internal/services/serverconfiguration_service.go:841-864 | The number of the last matching rule, or 0. |
| RuleChains.LastPositionIs | internal/services/serverconfiguration_service.go:841-864 | At that number a rule matches, and none behind it. |
| RuleChains.InsertMany | internal/services/serverconfiguration_service.go:404-433 | Inserting at rising positions puts the rules in order behind the place, each position at most chain length + 1, until one is refused. |
| RuleChains.BuildUndone | internal/services/serverconfiguration_service.go:371-506 | After deleting the server's rules, a chain with its additions, however many were made, equals the chain before without the server's rules. |
| RuleChains.FirstMatchRespectsOrder | internal/services/serverconfiguration_service.go:371-506 | In an ordered chain the first managed rule a packet matches is of the earliest kind it matches. |
| Firewall.InferFamilyIs | internal/services/firewall_helpers.go:66-83 | No family exactly for a mixture; else the one given or found in an address, IPv4 where nothing tells. |
| Firewall.RuleAddedIs | internal/services/serverconfiguration_service.go:2095-2108 | A rule that goes in has the number asked for, or is last; all others stay in order, and a refused command changes nothing. |
| DDoSRules.DeletedKeepsOrder | internal/services/serverconfiguration_service.go:2133-2188 | Deleting by comment keeps bans before accepts before limits. |
| DDoSRules.FamiliesAreComplete | internal/services/firewall_helpers.go:265-299 | The families written to are installed, each once, IPv4 first, and the family of every entry is among them. |
| DDoSRules.FamiliesAreNeeded | internal/services/firewall_helpers.go:265-299 | A family is written to if it is one of the host, of its address or of an entry, and otherwise only as the sole fallback, IPv6 only where IPv4 is not installed. |
| DDoSRules.AppliedKeepsOrder | internal/services/serverconfiguration_service.go:371-506 | Applying a policy keeps the order, whatever is refused. |
| DDoSRules.ApplyingTwiceIsApplyingOnce | internal/services/serverconfiguration_service.go:371-506 | Applying the same policy twice with nothing refused leaves the chains of applying it once. |
| DDoSRules.SuccessfulApplication | internal/services/serverconfiguration_service.go:393-506 | After success each family has one contiguous block of accepts directly behind the last ban, or at the top, and the limits at the end. |
| DDoSRules.WhitelistAcceptsCounted | internal/services/serverconfiguration_service.go:393-433 | After success the whitelist accepts of both families number ports times entries. |
| DDoSRules.AppliedAccepts | internal/services/serverconfiguration_service.go:404-433 | After success, in each family, for each port and each entry of the family there is an accept with that source, the server's address and the port, and the server has no other accepts. |
| DDoSRules.AppliedLimits | internal/services/serverconfiguration_service.go:435-500 | For each port and each limit that is on there is a drop from anywhere to the server's address, with that limit, and the server has no other drops. |
| DDoSRules.ListedSourceMeetsNoLimit | internal/services/serverconfiguration_service.go:393-506 | A packet from a listed source to such a port meets an accept or a ban before any limit, however it relates to the limits. |
| DDoSRules.DisabledPolicyClears | internal/services/serverconfiguration_service.go:371-385 | A policy that is off, or a server that is not the system's, only loses its rules. |
| DDoSRules.OnlyOwnRulesAreFound | internal/services/serverconfiguration_service.go:371-380 | The prefix a server's rules are cleared by is in its own rules' comments and in no other server's. |
| ServerConfiguration.DeleteByComment | internal/services/serverconfiguration_service.go:2157-2188 | The method over the chain leaves the survivors of the search. |
| ServerConfiguration.FindLastRulePosition | internal/services/serverconfiguration_service.go:841-864 | The last rule whose comment contains the text. |
| ServerConfiguration.NormalizeWhitelistEntries | internal/services/serverconfiguration_service.go:807-839 | Canonical forms of the parts that parse, each once, in order. |
| ServerConfiguration.EntriesAre | internal/services/serverconfiguration_service.go:807-839 | The list holds the canonical forms of exactly the trimmed parts that parse. |
| ServerConfiguration.NormalizedListIsStable | internal/services/serverconfiguration_service.go:337-369 | Joined with commas and normalised again, a normalised list is itself. |
| ServerConfiguration.Service.AddRule | internal/services/serverconfiguration_service.go:2095-2108 | A rule is inserted at its position or appended in the chain of its family, or nothing changes. |
| ServerConfiguration.Service.DeleteRuleByComment | internal/services/serverconfiguration_service.go:2133-2155 | Both families' INPUT chains lose the rules found, FORWARD is untouched. |
| ServerConfiguration.Service.InsertAccepts | internal/services/serverconfiguration_service.go:404-433 | The accept loop of one family. |
| ServerConfiguration.Service.AppendLimits | internal/services/serverconfiguration_service.go:435-500 | The limit loop of one family. |
| ServerConfiguration.Service.ApplyDDoSIptables | internal/services/serverconfiguration_service.go:371-506 | Nothing for an empty server number; else chains and outcome after the family loop are those of the specification, whose rules `DDoSRules.AppliedAccepts` and `DDoSRules.AppliedLimits` tell field by field. |
| ServerConfiguration.Service.BanFail2BanIP | internal/services/serverconfiguration_fail2ban.go:368-432 | A live row only gets a new count and expiry; otherwise a DROP rule with the address as its source comes first in INPUT and the row is written (`Fail2Ban.NewBanBlocks`). What a failing lookup, command or write leaves is stated too: the rule of a row that cannot be written stays. |
| ServerConfiguration.Service.UnbanFail2BanIP | internal/services/serverconfiguration_fail2ban.go:191-203 | Rules with the ban's comment go from both chains, and the row goes unless its deletion fails, which is reported. |
| ServerConfiguration.Service.CleanupExpiredFail2BanBans | internal/services/serverconfiguration_fail2ban.go:464-485 | Exactly the expired rows that can be read are lifted, in whatever order they are listed; a row whose deletion fails stays. |
| ServerConfiguration.Service.ApplyFail2BanPolicy | internal/services/serverconfiguration_fail2ban.go:283-321 | The offenders that are not ignored are banned one after another. |
| ServerConfiguration.Service.EnforceFail2BanOnce | internal/services/serverconfiguration_fail2ban.go:205-266 | One enforcement is a run: an expiry followed by bans. |
| ServerConfiguration.PolicyBansAre | internal/services/serverconfiguration_fail2ban.go:283-321 | The bans of a policy are those of its offenders with an address that is not ignored, under its server, for its ban time or an hour. |
| ServerConfiguration.EnforcementBans | internal/services/serverconfiguration_fail2ban.go:205-266 | An enforcement bans nobody but such offenders of enabled policies. |
| Fail2Ban.StepKeepsOrder | internal/services/serverconfiguration_fail2ban.go:191-485 | Every step keeps bans before whitelist accepts before limits. |
| Fail2Ban.EveryRunIsOrdered | internal/services/serverconfiguration_fail2ban.go:191-485 | The order over every run of DDoS applications, bans, unbans, expiries and other rules, whatever is refused. |
| Fail2Ban.FirstMatchAfterEveryRun | internal/services/serverconfiguration_fail2ban.go:368-432 | After every run the first managed rule a packet matches is a ban if any is, and no limit if any is a whitelist accept. |
| Fail2Ban.LiftingKeepsBackedIff | internal/services/serverconfiguration_fail2ban.go:191-203 | Lifting a ban leaves another row its rule exactly when that row's comment does not contain the lifted one's. |
| Fail2Ban.UnbanHitsLongerAddress | internal/services/serverconfiguration_fail2ban.go:607-609 | Unbanning 10.0.0.1 removes the rule of 10.0.0.10 of the same server while its row stays. |
| Fail2Ban.StepKeepsTable | internal/services/serverconfiguration_fail2ban.go:191-485 | With commands and statements succeeding and no comment inside another, a step keeps every row backed by a DROP rule with the row's address as its source, and every ban rule by a row. |
| Fail2Ban.EveryRunKeepsTable | internal/services/serverconfiguration_fail2ban.go:191-485 | The same over every run. |
| Fail2Ban.RebanAddsNoRule | internal/services/serverconfiguration_fail2ban.go:374-388 | Banning a live address adds no rule, renews its count and time, and leaves the other rows, if the table can be read and written. |
| Fail2Ban.NewBanBlocks | internal/services/serverconfiguration_fail2ban.go:390-432 | The rule of a new ban is the first of the chain of its address's family; it meets the packets from the address to the server and no others, which are so dropped first, and the row holds count, time and expiry. |
| Fail2Ban.BannedPacketsAreDropped | internal/services/serverconfiguration_fail2ban.go:368-432 | After every run in which everything works, packets from the address of any row to the address it was banned for meet a ban first. |
| Fail2Ban.LiftingClears | internal/services/serverconfiguration_fail2ban.go:191-203 | Lifting clears both chains of the rules with the ban's comment, keeps all others in order, and removes no other row. |
| Fail2Ban.FailedBan | internal/services/serverconfiguration_fail2ban.go:368-432 | A ban that fails changes no row; it leaves a rule only where the rule was accepted and the row could not be written. |
| Fail2Ban.CommentTellsTheBan | internal/services/serverconfiguration_fail2ban.go:607-609 | Bans of different servers or addresses have different comments. |
| Fail2Ban.ExpiryNeverMovesBack | internal/services/serverconfiguration_fail2ban.go:368-432 | Under a fixed ban time no row's expiry ever moves back. |
| ErrorPages.ParseNginxErrorCodes | internal/services/nginx_config.go:554-591 | Fails on the stated inputs, else returns the specified list. |
| ErrorPages.ParsedCodesAre | internal/services/nginx_config.go:554-591 | A parsed list is non-empty, strictly ascending, three digits each, and has exactly the codes written. |
| ErrorPages.NormalizedCodesParse | internal/services/nginx_config.go:593-599 | Parsing a normalised list returns that list. |
| ErrorPages.ResolveErrorPage | internal/services/nginx_config.go:522-552 | Which pages are valid, their codes and file. |
| ErrorPages.ResolvedIs | internal/services/nginx_config.go:522-552 | A page counts exactly if its file is there, its codes parse, its name is a plain file name and its path one line without semicolon; it then covers exactly the codes written and leads to that name and path. |
| ErrorPages.TypesAreKnown | internal/services/nginx_config.go:601-618 | The content type for each kind of response, and plain text for any other. |
| ErrorPages.MergePages | internal/services/nginx_config.go:464-492 | One pass over the pages lays the valid ones over the map. |
| ErrorPages.MergedIsChosen | internal/services/nginx_config.go:464-492 | Each code leads to the last valid page of the site, or else to the last valid wildcard page. |
| ErrorPages.PagesDecide | internal/services/nginx_config.go:464-492 | In terms of the pages: each code leads to the file of the last enabled page of this server for the site that covers it, or, where none does, of the last one for all sites. |
| ErrorPages.GroupByFile | internal/services/nginx_config.go:494-519 | For any order of the maps: the groups split the codes into sorted non-empty lists, codes whose files share a key together; they are by file exactly when the keys tell the files apart. |
| ErrorPages.ResolveErrorPagesForSite | internal/services/nginx_config.go:464-520 | The whole resolution, from pages to sorted groups. |
| ErrorPages.OrderDoesNotMatter | internal/services/nginx_config.go:494-519 | Where groups are by file, they are the same for every map iteration order. |
| ErrorPages.CleanNamesTellApart | internal/services/nginx_config.go:496 | File names without NUL tell the files apart. |
| ErrorPages.SharedKeyMisplacesACode | internal/services/nginx_config.go:464-519 | With NUL in file names: for two well-formed files and two wildcard pages, every grouping sends one of the two codes to the other's file. |
| SnapshotCache.NormalizingIsIdempotent | internal/services/analytics_service.go:101-138 | Normalising normalised filters later changes nothing; the window no longer moves. |
| SnapshotCache.AnalyticsWhereClause | internal/services/analytics_service.go:161-211 | Text and arguments of the clause, condition by condition. |
| SnapshotQuery.ConditionsSelect | internal/services/analytics_service.go:161-211 | Read as SQL, the conditions with their arguments hold of exactly the log rows the normalised filters ask for. |
| SnapshotQuery.WindowIs | internal/services/analytics_service.go:111-137 | The window is in order; its ends are those given, and a missing one is filled in from the other or from now. |
| SnapshotQuery.UsualRange | internal/services/analytics_service.go:111-121 | Without a range a request looks back an hour. |
| SnapshotQuery.StatusClassIs | internal/services/analytics_service.go:140-147 | A status class is a digit from 1 to 5 and `xx`, in any case; any other text is none. |
| SnapshotCache.EqualKeysEqualFilters | internal/services/analytics_service.go:217-234 | Equal keys mean equal normalised filters up to the cache-only flag. |
| SnapshotCache.EqualKeysSameQuery | internal/services/analytics_service.go:161-234 | Equal keys force the same WHERE text and arguments, whenever asked, for texts free of U+001F. |
| SnapshotCache.SeparatorCollides | internal/services/analytics_service.go:217-234 | With U+001F in a text, two filters share a key and ask different queries. |
| SnapshotCache.KeysDecideIff | internal/services/analytics_service.go:161-234 | For texts over any set of characters, equal keys always force the same query exactly when U+001F is not in the set. |
| SnapshotCache.PutFits | internal/services/analytics_service.go:252-279 | Storing keeps the cache at no more than 128 entries. |
| SnapshotCache.PutIs | internal/services/analytics_service.go:252-279 | A store puts its snapshot under its key for five seconds and drops only expired entries or, where all of a full cache is live, one. |
| SnapshotCache.EveryRunFits | internal/services/analytics_service.go:236-279 | So does every interleaving of lookups and stores. |
| SnapshotCache.EveryEntryWasPut | internal/services/analytics_service.go:236-279 | Every entry was stored under its key by some store of the run. |
| SnapshotCache.HitAnswersSameQuery | internal/services/analytics_service.go:236-290 | A hit is at most 5 seconds old and was built for the same query. |
| SnapshotCache.SnapshotService.GetCachedSnapshot | internal/services/analytics_service.go:236-250 | A live entry is returned; an expired one is dropped. |
| SnapshotCache.SnapshotService.SetCachedSnapshot | internal/services/analytics_service.go:252-279 | A full cache first loses expired entries, else one arbitrary entry. |
| SnapshotCache.SnapshotService.Snapshot | internal/services/analytics_service.go:281-310 | Two lookups, then build and store; the flag answered is the asker's. |
| Settings.PrepareSettingsValuesForSave | internal/services/settings_service.go:249-281 | The prepared values or the error, the same for every order of the updates. |
| Settings.SettingsService.GetAllWithDefaults | internal/services/settings_service.go:149-161 | Stored non-empty values over the defaults; the defaults alone if the table cannot be read. |
| Settings.SettingsService.SetMany | internal/services/settings_service.go:177-211 | All prepared values are stored, or none. |
| Settings.SaveSucceeds | internal/services/settings_service.go:177-281 | A save succeeds exactly if the transaction does, a key text given parses, and a key that is needed is generated; otherwise nothing is stored. |
| Settings.SaveStores | internal/services/settings_service.go:177-281 | It stores every value given and keeps all others, except that a blank key is passed over where one is read and a generated key is stored where DNSSEC would be on without. |
| Settings.OnWords | internal/services/settings_service.go:458-471 | The words that switch a setting on, in any case. |
| Settings.SaveKeepsTheKey | internal/services/settings_service.go:249-281 | One save keeps "DNSSEC on implies a key; a key is never blanked and only replaced by one that parses" exactly unless it commits, without having read the table, a blank key for a set one while not switching DNSSEC on. |
| Settings.EveryRunKeepsTheKey | internal/services/settings_service.go:177-281 | The same over every sequence of saves none of which does that. |
| Settings.ReadableRunIsHarmless | internal/services/settings_service.go:177-281 | Saves that read the table never do. |
| Settings.BlankKeySavedUnread | internal/services/settings_service.go:149-211 | With DNSSEC on and a key set, a blank key saved while the table cannot be read leaves DNSSEC on without a key. |
| Settings.UnreadableSaveKeepsKeyIff | internal/services/settings_service.go:149-211 | An unreadable save that gives no new key leaves the key text as it is exactly when it leaves the key out and does not switch DNSSEC on. |
| Pem.WrapLines | internal/services/settings_service.go:536-545 | The writing loop produces lines of 64, the last one shorter. |
| Pem.NormalizeCompactPrivateKeyPem | internal/services/settings_service.go:515-548 | The re-wrapped text; slicing fails exactly when the end marker starts inside the begin marker. |
| Pem.RewrappingIsIdempotent | internal/services/settings_service.go:515-548 | Re-wrapping twice is re-wrapping once, and keeps the stripped body. |
| Pem.RewrappedLines | internal/services/settings_service.go:536-547 | Markers alone on their lines, body lines of 1 to 64 characters that make up the body. |
| Pem.SharedDashesOverlap | internal/services/settings_service.go:518-525 | Markers sharing their dashes overlap in that way. |
| Arguments.ParseArgs | internal/handlers/serverconfiguration_handler.go:384-422 | The loop over the characters yields the arguments of the specified scan. |
| Arguments.PlainTextIsSplit | internal/handlers/serverconfiguration_handler.go:384-422 | Text without quotes and backslashes is split at its blanks. |
| Arguments.QuotingRoundTrip | internal/handlers/serverconfiguration_handler.go:384-422 | Escaping every character and joining with spaces parses back exactly for non-empty arguments of which the last does not end in white space. |
| Arguments.PiecesRoundTrip | internal/handlers/serverconfiguration_handler.go:384-422 | Arguments written in pieces, bare or in quotes of either kind with backslashes where they are needed, parse back, for non-empty arguments and a text without white space at its ends. |
| NginxScanner.SplitServerBlocks | internal/services/system_nginx_config.go:330-372 | The byte scanner returns the blocks of the specification. |
| NginxScanner.OpeningIs | internal/services/system_nginx_config.go:342-353 | A block opens with `server`, any blanks and line breaks, and a brace, and with nothing else. |
| NginxScanner.BlockIsRead | internal/services/system_nginx_config.go:330-372 | A block that stays open until its last brace is found whole, and the scan goes on behind it. |
| NginxScanner.ListingIsSplit | internal/services/system_nginx_config.go:330-372 | Blocks listed one after another are found again, each as it was. |
| NginxLines.ExtractDirective | internal/services/system_nginx_config.go:451-469 | The value of the first line that starts with the name and a space. |
| NginxLines.DirectiveOfLines | internal/services/system_nginx_config.go:451-469 | On printed lines that is the first statement with the word. |
| NginxLines.ValueReadsBack | internal/services/system_nginx_config.go:461-466 | A printed value without comment sign is read back. |
| NginxLines.ContainsLines | internal/services/system_nginx_config.go:416-443 | A decisive text occurs in printed lines exactly where a statement prints it or a value holds it. |
| NginxLines.ExtractFastCgiSocket | internal/services/system_nginx_config.go:486-514 | The search through location lines, by its state. |
| NginxSites.FirstPort | internal/services/system_nginx_config.go:476-484 | The first field that is a number. |
| NginxSites.NormalizeSystemNginxSites | internal/services/system_nginx_config.go:113-161 | The sites kept, which `NginxImporting.NormalSitesAre` tells one by one. |
| NginxImporting.NormalSitesAre | internal/services/system_nginx_config.go:113-161 | Kept are exactly the named sites that are the first with their identifier, each in its normal form, in their order; a nameless site still takes its identifier. |
| NginxImporting.DefaultsOfASite | internal/services/system_nginx_config.go:115-157 | What a site gets that leaves its fields blank. |
| NginxSites.RenderSystemNginxSite | internal/services/system_nginx_config.go:195-317 | The text of a valid site, Cache-Control escaped as Go quotes Latin-1 text; an error for any other site. |
| NginxPrinted.SiteIsPrinted | internal/services/system_nginx_config.go:195-317 | The lines of a block: its parts in this order between `server {` and `}`. |
| NginxPrinted.HeadIsPrinted | internal/services/system_nginx_config.go:213-223 | The listen and server name lines. |
| NginxPrinted.SslIsPrinted | internal/services/system_nginx_config.go:225-238 | With TLS one line for each path that is set, without TLS none. |
| NginxPrinted.StaticInnerIsPrinted | internal/services/system_nginx_config.go:253-267 | The lines of the static location, with logging off, expiry and Cache-Control as set. |
| NginxPrinted.PhpMyAdminIsPrinted | internal/services/system_nginx_config.go:269-280 | Two locations, the second of which passes to the phpMyAdmin socket, or none. |
| NginxPrinted.FastCgiIsPrinted | internal/services/system_nginx_config.go:276-288 | A FastCGI location passes the script to its socket. |
| NginxPrinted.MainIsPrinted | internal/services/system_nginx_config.go:290-313 | A proxy site passes everything on with the headers of `NginxPrinted.ProxyHeadersArePrinted`, any other tries files. |
| NginxPrinted.ProxyHeadersArePrinted | internal/services/system_nginx_config.go:303-306 | The four headers that tell the upstream host, client address and scheme. |
| NginxPrinted.HeadersArePrinted | internal/services/nginx_config.go:419-424 | The four security headers of every block. |
| NginxSites.RenderSystemNginxConfig | internal/services/system_nginx_config.go:171-193 | The text of all sites and the raw tail, as `NginxFixedPoint.RawTextIsKept` tells. |
| NginxFixedPoint.RawTextIsKept | internal/services/system_nginx_config.go:105-193 | An error exactly for an invalid site. Without sites the trimmed raw text and a line break, or nothing for blank text; otherwise the blocks and, behind an empty line, the raw text trimmed on the right, ending in one line break. |
| NginxSites.ParseImportedSystemNginxSite | internal/services/system_nginx_config.go:374-449 | The site read from a block, field by field. |
| NginxSites.ImportSystemNginxConfig | internal/services/system_nginx_config.go:81-103 | The normalised sites of all blocks, or the first error. |
| NginxImporting.ImportSucceedsIff | internal/services/system_nginx_config.go:81-103 | An import succeeds exactly if the text holds a block and every block has a server name that is not blank. |
| NginxImporting.CommentIsCutOff | internal/services/system_nginx_config.go:461-466 | A comment behind a value is cut off. |
| NginxImporting.NumeralsAreRead | internal/services/system_nginx_config.go:476-484 | A numeral is read exactly where it fits into 64 bits. |
| NginxSockets.PhpSocket | internal/services/system_nginx_config.go:486-518 | The PHP socket of a printed site is found, past the phpMyAdmin one. |
| NginxSockets.PhpMyAdminSocket | internal/services/system_nginx_config.go:486-518 | The phpMyAdmin socket of a printed site is found. |
| NginxRoundTrip.SiteIsReimported | internal/services/system_nginx_config.go:374-474 | A printed site is imported as itself, up to what was not printed and to Cache-Control, which comes back with its escapes. |
| NginxQuoting.QuoteAgain | internal/services/system_nginx_config.go:264-473 | Quoting what was read back of a quoted value gives the same text exactly when no character of the value is escaped. |
| NginxFixedPoint.SiteFixedPoint | internal/services/system_nginx_config.go:195-449 | A site prints the same after its import exactly when, with TLS on, both TLS include paths are set and, with a static alias, no character of Cache-Control is escaped; otherwise the text does not get shorter. |
| NginxFixedPoint.NoBreakSpaceIsNotPrintedAgain | internal/services/system_nginx_config.go:195-473 | With a no-break space inside Cache-Control the site is imported with the text of its escape and prints differently. |
| NginxFixedPoint.RenderImportRender | internal/services/system_nginx_config.go:81-449 | For plain valid sites: render, import, render gives the same text exactly when every site with TLS has both include paths and no printed Cache-Control holds a character that is escaped. |

## Left out

- Text is a sequence of Unicode code points; case mapping is the ASCII one. Byte order and code-point order agree on valid UTF-8.
- SQL text, collation and schema: tables are maps or sequences, and a query for one row takes the first that matches.
- UDP sockets, packet packing, SOA contents, RRSIG signing and key generation; whether a text holds a key is a parameter.
- The DNS handler sends no wildcard and no empty-non-terminal proof, so only what one NSEC record says is stated.
- Failures of the handler's record queries, apart from the query for zone names.
- Running `iptables`, `nginx` and `ping`, file writes, SMTP, ACME and reputation calls: each is a parameter that says what was refused.
- DDoS applications and the ban loop share no lock in the program; each is one step here. So are an incident sync and a dismissal, and one login attempt.
- Parsing of addresses, of comment columns in rule listings and of ports: parameters (`familyOf`, `canon`, `canBlock`, the comment of a rule).
- How addresses match rules and which limits a packet exceeds: parameters (`covers`, `over`); the names of hash limits are not modelled.
- Rules outside the managed comments, other than that they carry no managed marker.
- Creating missing tables, the loading of ban policies and of the server's address and hosts, and their failures.
- Fail2Ban offenders come from the access log query as a parameter; the notification mail is not modelled.
- Mail bodies and templates, retry of a failed listing, and the single-flight grouping of concurrent snapshot builds.
- `RetentionDays` of a snapshot, which only the miss path sets.
- SnapshotCache.Normalized: range minutes and instants are unbounded, so the wrap-around of a duration beyond 292 years is not modelled.
- NginxSites.RenderSystemNginxConfig: the DDoS policy is off; its globals, challenge location and limits are not printed.
- NginxSites.RenderSystemNginxSite: likewise; and characters beyond Latin-1 in Cache-Control are left as they are, because which of them Go escapes is a Unicode table. Printed Cache-Control values are therefore Latin-1 text in the theorems on printing and importing.
- NginxFixedPoint.RenderImportRender: values must be plain as printed, without line break, comment sign, brace or a text that decides what is imported; text outside server blocks is dropped by the importer and not considered.
- nginx configurations generated for managed servers, VPN configurations, certificates, statistics queries, sessions, routing and the web frontend.
- Supervision loops with timers: a run is any sequence of steps at non-decreasing times.

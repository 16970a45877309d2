/** Saving settings, and what it keeps true of the DNSSEC signing key. */
module Settings {
  import opened Text
  import opened Sorting

  const KEY := "dns.dnssec_private_key_pem"
  const ENABLED := "dns.dnssec_enabled"

  type Values = map<string, string>

  function Get(m: Values, k: string): string {
    if k in m then m[k] else ""
  }

  predicate Blank(s: string) {
    TrimSpace(s) == ""
  }

  /** `settingEnabledForSettings(raw, false)` */
  predicate IsOn(raw: string) {
    TrimSpace(ToLower(raw)) in {"1", "true", "yes", "on"}
  }

  /** The words that switch a setting on, in any case and with blanks around. */
  lemma OnWords(raw: string, word: string)
    requires TrimSpace(ToLower(raw)) == word
    ensures IsOn(raw) <==> word == "1" || word == "true" || word == "yes" || word == "on"
  {
  }

  /** The update of the key that is passed over: blank, where a key is set. */
  predicate KeptBack(current: Values, k: string, value: string) {
    k == KEY && Blank(value) && !Blank(Get(current, KEY))
  }

  /** Whether a text holds a usable private key is decided by `parses`. */
  predicate Acceptable(k: string, value: string, parses: string -> bool) {
    k == KEY && !Blank(value) ==> parses(value)
  }

  function Kept(current: Values, updates: Values): Values {
    map k | k in updates && !KeptBack(current, k, updates[k]) :: updates[k]
  }

  /** DNSSEC would be on without a key. */
  predicate NeedsKey(effective: Values) {
    IsOn(Get(effective, ENABLED)) && Blank(Get(effective, KEY))
  }

  /** `prepareSettingsValuesForSave` as a function of the two maps: no order of visiting matters. */
  function Prepared(current: Values, updates: Values, parses: string -> bool,
                    generated: Result<string>): Result<Values> {
    if exists k :: k in updates && !Acceptable(k, updates[k], parses) then Err("invalid DNSSEC private key")
    else if NeedsKey(current + Kept(current, updates)) then
      match generated
      case Ok(pem) => Ok(Kept(current, updates)[KEY := pem])
      case Err(e) => Err(e)
    else Ok(Kept(current, updates))
  }

  /** The entries that pass, of the keys visited. */
  function Picked<K, V>(m: map<K, V>, visited: set<K>, pick: (K, V) -> bool): map<K, V> {
    map k | k in m && k in visited && pick(k, m[k]) :: m[k]
  }

  /** The loop over the updates, in any order: those to keep are checked and copied. */
  method CopyUpdates<K, V>(current: map<K, V>, updates: map<K, V>, keep: (K, V) -> bool, acceptable: (K, V) -> bool)
    returns (ok: bool, prepared: map<K, V>, effective: map<K, V>)
    requires forall k :: k in updates && !keep(k, updates[k]) ==> acceptable(k, updates[k])
    ensures ok <==> forall k :: k in updates ==> acceptable(k, updates[k])
    ensures ok ==> prepared == (map k | k in updates && keep(k, updates[k]) :: updates[k])
    ensures ok ==> effective == current + prepared
  {
    ok, prepared, effective := true, map[], current;
    var rest := updates.Keys;
    while rest != {}
      invariant rest <= updates.Keys
      invariant forall k :: k in updates && k !in rest ==> acceptable(k, updates[k])
      invariant ok && prepared == Picked(updates, updates.Keys - rest, keep) && effective == current + prepared
    {
      var key :| key in rest;
      var value := updates[key];
      rest := rest - {key};
      if !keep(key, value) {
        continue;
      }
      if !acceptable(key, value) {
        ok := false;
        return;
      }
      prepared := prepared[key := value];
      effective := effective[key := value];
    }
  }

  /** `prepareSettingsValuesForSave` */
  method PrepareSettingsValuesForSave(current: Values, updates: Values, parses: string -> bool,
                                      generated: Result<string>)
    returns (r: Result<Values>)
    ensures r == Prepared(current, updates, parses, generated)
  {
    var ok, prepared, effective :=
      CopyUpdates(current, updates, (k, v) => !KeptBack(current, k, v), (k, v) => Acceptable(k, v, parses));
    if !ok {
      return Err("invalid DNSSEC private key");
    }
    assert prepared == Kept(current, updates);
    if NeedsKey(effective) {
      match generated
      case Err(e) => return Err(e);
      case Ok(pem) => prepared := prepared[KEY := pem];
    }
    return Ok(prepared);
  }

  // ---------- The table

  /** `GetAllWithDefaults` when the table can be read: stored values that are not empty. */
  function View(defaults: Values, stored: Values): Values {
    defaults + map k | k in stored && stored[k] != "" :: stored[k]
  }

  /** The loop that lays the entries that pass over others. */
  method Overlay<K, V>(base: map<K, V>, over: map<K, V>, pick: (K, V) -> bool) returns (values: map<K, V>)
    ensures values == base + map k | k in over && pick(k, over[k]) :: over[k]
  {
    values := base;
    var rest := over.Keys;
    while rest != {}
      invariant rest <= over.Keys
      invariant values == base + Picked(over, over.Keys - rest, pick)
    {
      var key :| key in rest;
      rest := rest - {key};
      if pick(key, over[key]) {
        values := values[key := over[key]];
      }
    }
  }

  class SettingsService {
    var stored: Values
    const defaults: Values
    const parses: string -> bool

    constructor (defaults: Values, parses: string -> bool)
      ensures stored == map[] && this.defaults == defaults && this.parses == parses
    {
      stored := map[];
      this.defaults, this.parses := defaults, parses;
    }

    /** An unreadable table reads as if nothing were stored. */
    method GetAllWithDefaults(readable: bool) returns (values: Values)
      ensures values == if readable then View(defaults, stored) else defaults
    {
      values := defaults;
      if !readable {
        return;
      }
      values := Overlay(defaults, stored, (k, v) => v != "");
    }

    /** `SetMany`: all of the prepared values or, on any failure, none. */
    method SetMany(updates: Values, e: Outcome) returns (ok: bool)
      modifies this
      ensures (stored, ok) == Saved(old(stored), defaults, parses, updates, e)
    {
      var current := GetAllWithDefaults(e.readable);
      var prepared := PrepareSettingsValuesForSave(current, updates, parses, e.generated);
      if prepared.Err? || !e.commits {
        return false;
      }
      stored := stored + prepared.value;
      return true;
    }
  }

  /** What the database and the key generator do during one save. */
  datatype Outcome = Outcome(readable: bool, commits: bool, generated: Result<string>)

  function Saved(stored: Values, defaults: Values, parses: string -> bool, updates: Values,
                 e: Outcome): (Values, bool) {
    var current := if e.readable then View(defaults, stored) else defaults;
    var prepared := Prepared(current, updates, parses, e.generated);
    if prepared.Err? || !e.commits then (stored, false) else (stored + prepared.value, true)
  }

  /** A blank key is passed over where one is read. */
  predicate PassedOver(current: Values, updates: Values) {
    KEY in updates && Blank(updates[KEY]) && !Blank(Get(current, KEY))
  }

  /** DNSSEC is to be on, and there is no key. */
  predicate KeyNeeded(current: Values, updates: Values) {
    && IsOn(if ENABLED in updates then updates[ENABLED] else Get(current, ENABLED))
    && Blank(if KEY in updates && !PassedOver(current, updates) then updates[KEY] else Get(current, KEY))
  }

  lemma KeptGet(current: Values, updates: Values)
    ensures NeedsKey(current + Kept(current, updates)) <==> KeyNeeded(current, updates)
  {
    assert |KEY| != |ENABLED|;
  }

  lemma UnacceptableIsKey(updates: Values, parses: string -> bool)
    ensures (exists k :: k in updates && !Acceptable(k, updates[k], parses))
            <==> KEY in updates && !Blank(updates[KEY]) && !parses(updates[KEY])
  {
  }

  lemma PreparedIs(current: Values, updates: Values, parses: string -> bool, generated: Result<string>)
    ensures var r := Prepared(current, updates, parses, generated);
            && (r.Ok? <==> (KEY in updates && !Blank(updates[KEY]) ==> parses(updates[KEY]))
                           && (KeyNeeded(current, updates) ==> generated.Ok?))
            && (r.Ok? ==>
                  r.value == if KeyNeeded(current, updates) then Kept(current, updates)[KEY := generated.value]
                             else Kept(current, updates))
  {
    KeptGet(current, updates);
    UnacceptableIsKey(updates, parses);
  }

  /** A save succeeds if the transaction does, a key text that is given parses, and a key that is
      needed can be generated; otherwise it stores nothing. */
  lemma SaveSucceeds(stored: Values, defaults: Values, parses: string -> bool, updates: Values, e: Outcome)
    ensures var (stored', ok) := Saved(stored, defaults, parses, updates, e);
            var current := if e.readable then View(defaults, stored) else defaults;
            && (ok <==> && e.commits && (KEY in updates && !Blank(updates[KEY]) ==> parses(updates[KEY]))
                        && (KeyNeeded(current, updates) ==> e.generated.Ok?))
            && (!ok ==> stored' == stored)
  {
    PreparedIs(if e.readable then View(defaults, stored) else defaults, updates, parses, e.generated);
  }

  /** It stores every value given and keeps every other, except that a blank key is passed over where
      one is read, and a key is generated where DNSSEC would be on without. */
  lemma SaveStores(stored: Values, defaults: Values, parses: string -> bool, updates: Values, e: Outcome, k: string)
    requires Saved(stored, defaults, parses, updates, e).1
    ensures var stored' := Saved(stored, defaults, parses, updates, e).0;
            var current := if e.readable then View(defaults, stored) else defaults;
            if k == KEY && KeyNeeded(current, updates) then
              e.generated.Ok? && k in stored' && stored'[k] == e.generated.value
            else if k in updates && !(k == KEY && PassedOver(current, updates)) then
              k in stored' && stored'[k] == updates[k]
            else (k in stored' <==> k in stored) && (k in stored ==> stored'[k] == stored[k])
  {
    PreparedIs(if e.readable then View(defaults, stored) else defaults, updates, parses, e.generated);
  }

  // ---------- The signing key over runs

  ghost predicate SetUp(defaults: Values, parses: string -> bool) {
    && Get(defaults, KEY) == "" && Get(defaults, ENABLED) == "0"
    && forall s :: parses(s) ==> !Blank(s)
  }

  /** A key that is generated parses. */
  predicate GoodOutcome(e: Outcome, parses: string -> bool) {
    e.generated.Ok? ==> parses(e.generated.value)
  }

  /** DNSSEC on implies a key. */
  predicate HasKeyIfOn(defaults: Values, stored: Values) {
    IsOn(Get(View(defaults, stored), ENABLED)) ==> !Blank(Get(View(defaults, stored), KEY))
  }

  lemma ViewGet(defaults: Values, stored: Values, k: string)
    ensures Get(View(defaults, stored), k) == if Get(stored, k) != "" then stored[k] else Get(defaults, k)
  {
  }

  lemma ZeroIsOff()
    ensures !IsOn("0") && !IsOn("") && Blank("")
  {
    assert ToLower("0")[0] == '0';
    assert ToLower("0") == "0";
  }

  datatype Save = Save(updates: Values, outcome: Outcome)

  function After(stored: Values, defaults: Values, parses: string -> bool, saves: seq<Save>): Values
    decreases |saves|
  {
    if saves == [] then stored
    else After(Saved(stored, defaults, parses, saves[0].updates, saves[0].outcome).0, defaults, parses, saves[1..])
  }

  /** What one save does to the key as it is read afterwards. */
  ghost predicate KeyIsSafe(defaults: Values, parses: string -> bool, stored: Values, stored': Values) {
    var key, key' := Get(View(defaults, stored), KEY), Get(View(defaults, stored'), KEY);
    && (!Blank(key) ==> !Blank(key') && (key' == key || parses(key')))
    && (HasKeyIfOn(defaults, stored) ==> HasKeyIfOn(defaults, stored'))
  }

  /** A blank key, given where a key is set and DNSSEC is not switched on by the same save. */
  predicate BlanksKey(defaults: Values, stored: Values, updates: Values) {
    && KEY in updates && Blank(updates[KEY]) && !IsOn(Get(updates, ENABLED))
    && !Blank(Get(View(defaults, stored), KEY))
  }

  predicate Harmless(defaults: Values, stored: Values, save: Save) {
    save.outcome.readable || !save.outcome.commits || !BlanksKey(defaults, stored, save.updates)
  }

  /** A save is safe exactly unless it commits a blank key for a set one without having been able
      to read the table. */
  lemma SaveKeepsTheKey(stored: Values, defaults: Values, parses: string -> bool, updates: Values, e: Outcome)
    requires SetUp(defaults, parses) && GoodOutcome(e, parses)
    ensures KeyIsSafe(defaults, parses, stored, Saved(stored, defaults, parses, updates, e).0)
            <==> Harmless(defaults, stored, Save(updates, e))
  {
    ZeroIsOff();
    if e.readable || !e.commits {
      ReadableSaveIsSafe(stored, defaults, parses, updates, e);
    } else {
      UnreadableSaveIsSafeIff(stored, defaults, parses, updates, e);
    }
  }

  lemma ReadableSaveIsSafe(stored: Values, defaults: Values, parses: string -> bool, updates: Values, e: Outcome)
    requires SetUp(defaults, parses) && GoodOutcome(e, parses) && (e.readable || !e.commits)
    ensures KeyIsSafe(defaults, parses, stored, Saved(stored, defaults, parses, updates, e).0)
  {
    ZeroIsOff();
    var stored' := Saved(stored, defaults, parses, updates, e).0;
    ViewGet(defaults, stored, KEY);
    ViewGet(defaults, stored, ENABLED);
    ViewGet(defaults, stored', KEY);
    ViewGet(defaults, stored', ENABLED);
  }

  lemma UnreadableSaveIsSafeIff(stored: Values, defaults: Values, parses: string -> bool, updates: Values, e: Outcome)
    requires SetUp(defaults, parses) && GoodOutcome(e, parses) && !e.readable && e.commits
    ensures KeyIsSafe(defaults, parses, stored, Saved(stored, defaults, parses, updates, e).0)
            <==> !BlanksKey(defaults, stored, updates)
  {
    ZeroIsOff();
    SaveSucceeds(stored, defaults, parses, updates, e);
    if Saved(stored, defaults, parses, updates, e).1 {
      SaveStores(stored, defaults, parses, updates, e, KEY);
      SaveStores(stored, defaults, parses, updates, e, ENABLED);
      SafeUnlessBlanked(stored, Saved(stored, defaults, parses, updates, e).0, defaults, parses, updates);
    }
  }

  ghost predicate SameAt(stored: Values, stored': Values, k: string) {
    (k in stored' <==> k in stored) && (k in stored ==> stored'[k] == stored[k])
  }

  /** The same of the table such a save leaves. */
  lemma SafeUnlessBlanked(stored: Values, stored': Values, defaults: Values, parses: string -> bool, updates: Values)
    requires SetUp(defaults, parses)
    requires if ENABLED in updates then ENABLED in stored' && stored'[ENABLED] == updates[ENABLED]
             else SameAt(stored, stored', ENABLED)
    requires if KeyNeeded(defaults, updates) then KEY in stored' && parses(stored'[KEY])
             else if KEY in updates then
               KEY in stored' && stored'[KEY] == updates[KEY] && (Blank(updates[KEY]) || parses(updates[KEY]))
             else SameAt(stored, stored', KEY)
    ensures KeyIsSafe(defaults, parses, stored, stored') <==> !BlanksKey(defaults, stored, updates)
  {
    ZeroIsOff();
    ViewGet(defaults, stored, KEY);
    ViewGet(defaults, stored, ENABLED);
    ViewGet(defaults, stored', KEY);
    ViewGet(defaults, stored', ENABLED);
  }

  /** Every save of the run is harmless in the table it finds. */
  predicate HarmlessRun(stored: Values, defaults: Values, parses: string -> bool, saves: seq<Save>)
    decreases |saves|
  {
    saves == []
    || (Harmless(defaults, stored, saves[0])
        && HarmlessRun(Saved(stored, defaults, parses, saves[0].updates, saves[0].outcome).0, defaults, parses,
           saves[1..]))
  }

  /** In every run of harmless saves: with DNSSEC on there is a key, and a key once set is never
      blanked and only ever replaced by one that parses. */
  lemma {:induction false} EveryRunKeepsTheKey(stored: Values, defaults: Values, parses: string -> bool,
                                               saves: seq<Save>)
    requires SetUp(defaults, parses) && forall i :: 0 <= i < |saves| ==> GoodOutcome(saves[i].outcome, parses)
    requires HarmlessRun(stored, defaults, parses, saves)
    ensures KeyIsSafe(defaults, parses, stored, After(stored, defaults, parses, saves))
    decreases |saves|
  {
    if saves != [] {
      var next := Saved(stored, defaults, parses, saves[0].updates, saves[0].outcome).0;
      SaveKeepsTheKey(stored, defaults, parses, saves[0].updates, saves[0].outcome);
      EveryRunKeepsTheKey(next, defaults, parses, saves[1..]);
    }
  }

  /** Saves that find the table readable are harmless, whatever they give. */
  lemma {:induction false} ReadableRunIsHarmless(stored: Values, defaults: Values, parses: string -> bool,
                                                 saves: seq<Save>)
    requires forall i :: 0 <= i < |saves| ==> saves[i].outcome.readable
    ensures HarmlessRun(stored, defaults, parses, saves)
    decreases |saves|
  {
    if saves != [] {
      ReadableRunIsHarmless(Saved(stored, defaults, parses, saves[0].updates, saves[0].outcome).0, defaults, parses,
                            saves[1..]);
    }
  }

  /** DNSSEC is on with a key; a blank key is saved while the table cannot be read; DNSSEC is on
      without a key. */
  lemma BlankKeySavedUnread(defaults: Values, parses: string -> bool, generated: Result<string>)
    requires SetUp(defaults, parses)
    ensures var stored := map[ENABLED := "1", KEY := "k"];
            var save := Saved(stored, defaults, parses, map[KEY := ""], Outcome(false, true, generated));
            save.1 && HasKeyIfOn(defaults, stored) && !HasKeyIfOn(defaults, save.0)
  {
    ZeroIsOff();
    OneIsOn();
    var stored := map[ENABLED := "1", KEY := "k"];
    var stored' := Saved(stored, defaults, parses, map[KEY := ""], Outcome(false, true, generated)).0;
    ViewGet(defaults, stored, KEY);
    ViewGet(defaults, stored, ENABLED);
    ViewGet(defaults, stored', KEY);
    ViewGet(defaults, stored', ENABLED);
    assert Kept(defaults, map[KEY := ""]) == map[KEY := ""];
  }

  lemma OneIsOn()
    ensures IsOn("1") && !Blank("k") && KEY != ENABLED
  {
    assert ToLower("1") == "1";
    TrimSpaceTrimmed("1");
    TrimSpaceTrimmed("k");
    assert |KEY| != |ENABLED|;
  }

  /** A save during which the table cannot be read, and in which the administrator gives no new
      key, keeps the key exactly when it leaves the key out and does not switch DNSSEC on. */
  lemma UnreadableSaveKeepsKeyIff(stored: Values, defaults: Values, parses: string -> bool, updates: Values, e: Outcome)
    requires SetUp(defaults, parses) && !e.readable && e.commits && e.generated.Ok? && parses(e.generated.value)
    requires Blank(Get(updates, KEY)) && !Blank(Get(stored, KEY)) && e.generated.value != stored[KEY]
    ensures var stored' := Saved(stored, defaults, parses, updates, e).0;
            Get(View(defaults, stored'), KEY) == Get(View(defaults, stored), KEY)
            <==> KEY !in updates && !IsOn(Get(updates, ENABLED))
  {
    ZeroIsOff();
    var stored' := Saved(stored, defaults, parses, updates, e).0;
    ViewGet(defaults, stored, KEY);
    ViewGet(defaults, stored', KEY);
    assert Kept(defaults, updates) == updates;
  }
}

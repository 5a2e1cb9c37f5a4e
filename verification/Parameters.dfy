/**
 A database's parameters: reading back what the server stores, which may be
 quoted, and converging it on what is declared.
 */
module Parameters {
  import opened Wrappers

  // ------------------------------------------------------------------ quoting

  const QUOTE: char := '"'

  predicate LooksQuoted(v: string) {
    |v| >= 2 && v[0] == QUOTE && v[|v| - 1] == QUOTE
  }

  /** Replaces each pair of quotes by one, from the left and without overlap. */
  function Collapse(v: string): (r: string)
    ensures |r| <= |v|
  {
    if |v| < 2 then v
    else if v[0] == QUOTE && v[1] == QUOTE then [QUOTE] + Collapse(v[2..])
    else [v[0]] + Collapse(v[1..])
  }

  /** Undoes the quoting the server applies when it stores a value. */
  function Unquote(v: string): string {
    if LooksQuoted(v) then Collapse(v[1..|v| - 1]) else v
  }

  function DoubleQuotes(v: string): string {
    if v == [] then [] else (if v[0] == QUOTE then [QUOTE, QUOTE] else [v[0]]) + DoubleQuotes(v[1..])
  }

  /** What the server stores, given the rule by which it decides to quote. */
  function Stored(v: string, quotes: string -> bool): string {
    if quotes(v) then [QUOTE] + DoubleQuotes(v) + [QUOTE] else v
  }

  lemma {:induction false} CollapseUndoes(v: string)
    ensures Collapse(DoubleQuotes(v)) == v
  {
    if v != [] {
      CollapseUndoes(v[1..]);
      if v[0] == QUOTE {
        assert DoubleQuotes(v)[2..] == DoubleQuotes(v[1..]);
      } else {
        assert DoubleQuotes(v)[1..] == DoubleQuotes(v[1..]);
      }
    }
  }

  lemma QuotedComesBack(v: string)
    ensures Unquote([QUOTE] + DoubleQuotes(v) + [QUOTE]) == v
  {
    var stored := [QUOTE] + DoubleQuotes(v) + [QUOTE];
    assert stored[1..|stored| - 1] == DoubleQuotes(v);
    CollapseUndoes(v);
  }

  /**
   Exactly which servers this reads right: those that quote every value which
   itself begins and ends with a quote. Any other value comes back as it was.
   */
  lemma ReadsBackIff(quotes: string -> bool)
    ensures (forall v :: Unquote(Stored(v, quotes)) == v) <==> (forall v :: LooksQuoted(v) ==> quotes(v))
  {
    forall v ensures Unquote(Stored(v, quotes)) == v <==> (LooksQuoted(v) ==> quotes(v)) {
      if quotes(v) {
        QuotedComesBack(v);
      } else if LooksQuoted(v) {
        assert |Unquote(v)| < |v|;
      }
    }
    if forall v :: LooksQuoted(v) ==> quotes(v) {
      forall v ensures Unquote(Stored(v, quotes)) == v {
        assert LooksQuoted(v) ==> quotes(v);
      }
    }
    if v :| LooksQuoted(v) && !quotes(v) {
      assert Unquote(Stored(v, quotes)) != v;
    }
  }

  /** As documented: two names with a comma are stored in quotes, a quote among them as two. */
  lemma DocumentedValuesAreRead()
    ensures Unquote("\"a, b\"") == "a, b"
    ensures Unquote("\"a\"\"b\"") == "a\"b"
  {
    var first, second := "\"a, b\"", "\"a\"\"b\"";
    assert first[1..|first| - 1] == "a, b" && second[1..|second| - 1] == "a\"\"b";
    assert Collapse("a, b") == "a, b" by {
      NoQuotes("a, b");
      CollapseUndoes("a, b");
    }
    assert Collapse("a\"\"b") == ['a'] + Collapse("\"\"b");
    assert Collapse("\"\"b") == ['\"'] + Collapse("b");
  }

  lemma {:induction false} NoQuotes(v: string)
    requires QUOTE !in v
    ensures DoubleQuotes(v) == v
  {
    if v != [] {
      NoQuotes(v[1..]);
    }
  }

  /** The characters whose presence makes PostgreSQL quote a value. */
  predicate Ambiguous(v: string) {
    exists c :: c in v && (c == ',' || c == QUOTE || IsSpace(c))
  }

  predicate IsSpace(c: char) {
    c == ' ' || c == '\t' || c == '\n' || c == '\r'
  }

  /** So every value survives a server that quotes the ambiguous ones. */
  lemma AmbiguousReadsBack(v: string)
    ensures Unquote(Stored(v, Ambiguous)) == v
  {
    forall w | LooksQuoted(w) ensures Ambiguous(w) {
      assert w[0] in w;
    }
    ReadsBackIff(Ambiguous);
  }

  // ------------------------------------------------------------------ parsing

  datatype Setting = Setting(name: string, value: string)

  /** Where the first '=' stands, or the length if there is none. */
  function Separator(entry: string): (at: nat)
    ensures at <= |entry|
    ensures '=' !in entry[..at]
    ensures at < |entry| ==> entry[at] == '='
  {
    if entry == [] || entry[0] == '=' then 0
    else
      var at := 1 + Separator(entry[1..]);
      assert entry[..at] == [entry[0]] + entry[1..][..at - 1];
      at
  }

  function TrimLeft(s: string): string {
    if s != [] && IsSpace(s[0]) then TrimLeft(s[1..]) else s
  }

  function TrimRight(s: string): string {
    if s != [] && IsSpace(s[|s| - 1]) then TrimRight(s[..|s| - 1]) else s
  }

  function ParseEntry(entry: string): Option<Setting> {
    var at := Separator(entry);
    if at == |entry| then None
    else Some(Setting(TrimLeft(TrimRight(entry[..at])), Unquote(entry[at + 1..])))
  }

  /** The settings of a list of entries; a later entry for a name overrides an earlier one. */
  function Parsed(entries: seq<string>): map<string, string> {
    if entries == [] then map[]
    else
      var before, last := Parsed(entries[..|entries| - 1]), ParseEntry(entries[|entries| - 1]);
      if last.None? then before else before[last.value.name := last.value.value]
  }

  method ParseSetconfig(entries: seq<string>) returns (settings: map<string, string>)
    ensures settings == Parsed(entries)
  {
    settings := map[];
    for k := 0 to |entries|
      invariant settings == Parsed(entries[..k])
    {
      var at := Separator(entries[k]);
      if at < |entries[k]| {
        var name := TrimLeft(TrimRight(entries[k][..at]));
        settings := settings[name := Unquote(entries[k][at + 1..])];
      }
      assert entries[..k + 1][..k] == entries[..k];
    }
    assert entries[..|entries|] == entries;
  }

  /** White space round a name is no part of it. */
  lemma NamesAreTrimmed(before: string, name: string, after: string, value: string)
    requires IsName(name) && '=' !in before + after
    requires forall i :: 0 <= i < |before| ==> IsSpace(before[i])
    requires forall i :: 0 <= i < |after| ==> IsSpace(after[i])
    ensures ParseEntry(before + name + after + "=" + value) == Some(Setting(name, Unquote(value)))
  {
    var entry, at := before + name + after + "=" + value, |before + name + after|;
    assert entry[..at] == before + name + after && entry[at + 1..] == value;
    SeparatorIs(entry, at);
    TrimsRight(before + name, after);
    if name == [] {
      TrimsRight([], before);
      assert before + name == before && [] + before == before;
    } else {
      assert (before + name)[|before + name| - 1] == name[|name| - 1];
      TrimsLeft(before, name);
    }
  }

  lemma {:induction false} TrimsRight(s: string, spaces: string)
    requires forall i :: 0 <= i < |spaces| ==> IsSpace(spaces[i])
    ensures TrimRight(s + spaces) == TrimRight(s)
  {
    if spaces == [] {
      assert s + spaces == s;
    } else {
      assert (s + spaces)[..|s + spaces| - 1] == s + spaces[..|spaces| - 1];
      TrimsRight(s, spaces[..|spaces| - 1]);
    }
  }

  lemma {:induction false} TrimsLeft(spaces: string, s: string)
    requires forall i :: 0 <= i < |spaces| ==> IsSpace(spaces[i])
    ensures TrimLeft(spaces + s) == TrimLeft(s)
  {
    if spaces == [] {
      assert spaces + s == s;
    } else {
      assert (spaces + s)[1..] == spaces[1..] + s;
      TrimsLeft(spaces[1..], s);
    }
  }

  // By which a server decides, setting by setting, to quote a value.
  type Rule = (string, string) -> bool

  /** How the server renders a setting. */
  function Render(s: Setting, rule: Rule): string {
    s.name + "=" + Stored(s.value, v => rule(s.name, v))
  }

  function Rendered(settings: seq<Setting>, rule: Rule): (entries: seq<string>)
    ensures |entries| == |settings|
  {
    if settings == [] then []
    else Rendered(settings[..|settings| - 1], rule) + [Render(settings[|settings| - 1], rule)]
  }

  predicate IsName(name: string) {
    '=' !in name && (name != [] ==> !IsSpace(name[0]) && !IsSpace(name[|name| - 1]))
  }

  lemma {:induction false} SeparatorIs(entry: string, at: nat)
    requires at < |entry| && entry[at] == '=' && '=' !in entry[..at]
    ensures Separator(entry) == at
  {
    if at > 0 {
      assert entry[0] == entry[..at][0];
      assert entry[1..][..at - 1] == entry[..at][1..];
      SeparatorIs(entry[1..], at - 1);
    }
  }

  /** The server quotes the value, if it would otherwise be taken for a quoted one. */
  predicate ReadsRight(s: Setting, rule: Rule) {
    LooksQuoted(s.value) ==> rule(s.name, s.value)
  }

  /** What an entry is read as. */
  function ReadAs(s: Setting, rule: Rule): Setting {
    Setting(s.name, Unquote(Stored(s.value, v => rule(s.name, v))))
  }

  lemma EntryIsRead(s: Setting, rule: Rule)
    requires IsName(s.name)
    ensures ParseEntry(Render(s, rule)) == Some(ReadAs(s, rule))
  {
    var entry := Render(s, rule);
    assert entry[..|s.name|] == s.name;
    SeparatorIs(entry, |s.name|);
    assert entry[|s.name| + 1..] == Stored(s.value, v => rule(s.name, v));
  }

  /** One entry comes back exactly if it reads right, whatever the rule. */
  lemma EntryComesBackIff(s: Setting, rule: Rule)
    requires IsName(s.name)
    ensures ParseEntry(Render(s, rule)) == Some(s) <==> ReadsRight(s, rule)
  {
    EntryIsRead(s, rule);
    if rule(s.name, s.value) {
      QuotedComesBack(s.value);
    } else if LooksQuoted(s.value) {
      assert |Unquote(s.value)| < |s.value|;
    }
  }

  /** Settings in the order the server lists them. */
  function AsMap(settings: seq<Setting>): map<string, string> {
    if settings == [] then map[]
    else AsMap(settings[..|settings| - 1])[settings[|settings| - 1].name := settings[|settings| - 1].value]
  }

  ghost predicate AllReadRight(settings: seq<Setting>, rule: Rule) {
    forall s :: s in settings ==> ReadsRight(s, rule)
  }

  /** A name has one setting, as it has in the server's catalog. */
  ghost predicate Distinct(settings: seq<Setting>) {
    forall i, j :: 0 <= i < j < |settings| ==> settings[i].name != settings[j].name
  }

  function AllReadAs(settings: seq<Setting>, rule: Rule): (read: seq<Setting>)
    ensures |read| == |settings|
    ensures forall i :: 0 <= i < |read| ==> read[i] == ReadAs(settings[i], rule)
  {
    seq(|settings|, i requires 0 <= i < |settings| => ReadAs(settings[i], rule))
  }

  lemma LastParsed(settings: seq<Setting>, rule: Rule)
    requires settings != [] && IsName(settings[|settings| - 1].name)
    ensures var k := |settings| - 1; var last := ReadAs(settings[k], rule);
      Parsed(Rendered(settings, rule)) == Parsed(Rendered(settings[..k], rule))[last.name := last.value]
  {
    var k := |settings| - 1;
    EntryIsRead(settings[k], rule);
    assert Rendered(settings, rule)[..k] == Rendered(settings[..k], rule);
  }

  lemma LastMapped(settings: seq<Setting>, rule: Rule)
    requires settings != []
    ensures var k := |settings| - 1; var last := ReadAs(settings[k], rule);
      AsMap(AllReadAs(settings, rule)) == AsMap(AllReadAs(settings[..k], rule))[last.name := last.value]
  {
    var k := |settings| - 1;
    assert AllReadAs(settings, rule)[..k] == AllReadAs(settings[..k], rule);
  }

  lemma {:induction false} SettingsAreRead(settings: seq<Setting>, rule: Rule)
    requires forall s :: s in settings ==> IsName(s.name)
    ensures Parsed(Rendered(settings, rule)) == AsMap(AllReadAs(settings, rule))
  {
    if settings != [] {
      SettingsAreRead(settings[..|settings| - 1], rule);
      LastParsed(settings, rule);
      LastMapped(settings, rule);
    }
  }

  lemma {:induction false} MapHolds(settings: seq<Setting>, i: nat)
    requires Distinct(settings) && i < |settings|
    ensures settings[i].name in AsMap(settings) && AsMap(settings)[settings[i].name] == settings[i].value
  {
    if i < |settings| - 1 {
      MapHolds(settings[..|settings| - 1], i);
    }
  }

  /**
   Whatever settings a database has and whatever rule the server quotes by:
   they are read back as they were set if each reads right, and only then.
   */
  lemma SettingsComeBack(settings: seq<Setting>, rule: Rule)
    requires forall s :: s in settings ==> IsName(s.name)
    ensures AllReadRight(settings, rule) ==> Parsed(Rendered(settings, rule)) == AsMap(settings)
    ensures Distinct(settings) ==>
      (Parsed(Rendered(settings, rule)) == AsMap(settings) <==> AllReadRight(settings, rule))
  {
    SettingsAreRead(settings, rule);
    forall i | 0 <= i < |settings| ensures ReadAs(settings[i], rule) == settings[i] <==> ReadsRight(settings[i], rule) {
      EntryIsRead(settings[i], rule);
      EntryComesBackIff(settings[i], rule);
    }
    if AllReadRight(settings, rule) {
      assert AllReadAs(settings, rule) == settings;
    }
    if Distinct(settings) && Parsed(Rendered(settings, rule)) == AsMap(settings) {
      forall i | 0 <= i < |settings| ensures ReadsRight(settings[i], rule) {
        MapHolds(settings, i);
        MapHolds(AllReadAs(settings, rule), i);
      }
    }
  }

  /** As they do under the documented rule, which has regard to the value alone. */
  lemma AmbiguousSettingsComeBack(settings: seq<Setting>)
    requires forall s :: s in settings ==> IsName(s.name)
    ensures Parsed(Rendered(settings, (_, v) => Ambiguous(v))) == AsMap(settings)
  {
    forall s: Setting | s in settings && LooksQuoted(s.value) ensures Ambiguous(s.value) {
      assert s.value[0] in s.value;
    }
    SettingsComeBack(settings, (_, v) => Ambiguous(v));
  }

  // -------------------------------------------------------------- convergence

  type Settings = map<string, string>

  /** Whether a pass has anything to do about a key. */
  predicate Differs(observed: Settings, desired: Settings, key: string) {
    if key in desired then key !in observed || observed[key] != desired[key] else key in observed
  }

  function Differing(observed: Settings, desired: Settings): set<string> {
    set key <- observed.Keys + desired.Keys | Differs(observed, desired, key)
  }

  /** The settings a pass leaves: those declared, but a key the role may not change stays as it was. */
  function Converged(observed: Settings, desired: Settings, denied: set<string>): Settings {
    map key | key in observed.Keys + desired.Keys && (if key in denied then key in observed else key in desired) ::
      if key in denied then observed[key] else desired[key]
  }

  class ServerDatabase {
    var settings: Settings
    var attempted: seq<string>   // the keys of the ALTER DATABASE statements issued

    constructor (settings: Settings)
      ensures this.settings == settings && attempted == []
    {
      this.settings, attempted := settings, [];
    }

    /** One ALTER DATABASE, to set the key or to reset it. */
    method Alter(key: string, value: Option<string>, denied: bool) returns (ok: bool)
      modifies this
      ensures ok == !denied && attempted == old(attempted) + [key]
      ensures settings == if denied then old(settings)
                          else if value.Some? then old(settings)[key := value.value] else old(settings) - {key}
    {
      attempted := attempted + [key];
      ok := !denied;
      if ok {
        settings := if value.Some? then settings[key := value.value] else settings - {key};
      }
    }
  }

  /** Sets what is declared and differs, resets what is no longer declared, and reports what was refused. */
  method ApplyParameters(db: ServerDatabase, desired: Settings, observed: Settings, denied: set<string>)
    returns (refused: set<string>)
    requires db.settings == observed && db.attempted == []
    modifies db
    ensures db.settings == Converged(observed, desired, denied)
    ensures refused == Differing(observed, desired) * denied
    ensures forall key :: key in db.attempted <==> key in Differing(observed, desired)
  {
    refused := {};
    var rest, done := desired.Keys, {};
    while rest != {}
      invariant rest !! done && rest + done == desired.Keys
      invariant forall key :: Settled(db.settings, key, done, observed, desired, denied)
      invariant refused == Differing(observed, desired) * denied * done
      invariant forall key :: key in db.attempted <==> key in Differing(observed, desired) * done
      decreases rest
    {
      var key :| key in rest;
      ghost var before := db.settings;
      assert Settled(before, key, done, observed, desired, denied);
      if key !in observed || observed[key] != desired[key] {
        var ok := db.Alter(key, Some(desired[key]), key in denied);
        if !ok {
          refused := refused + {key};
        }
      }
      OneMoreSettled(before, db.settings, key, done, observed, desired, denied);
      rest, done := rest - {key}, done + {key};
    }
    rest := observed.Keys - desired.Keys;
    while rest != {}
      invariant rest !! done && rest + done == desired.Keys + observed.Keys
      invariant rest !! desired.Keys
      invariant forall key :: Settled(db.settings, key, done, observed, desired, denied)
      invariant refused == Differing(observed, desired) * denied * done
      invariant forall key :: key in db.attempted <==> key in Differing(observed, desired) * done
      decreases rest
    {
      var key :| key in rest;
      ghost var before := db.settings;
      assert Settled(before, key, done, observed, desired, denied);
      var ok := db.Alter(key, None, key in denied);
      if !ok {
        refused := refused + {key};
      }
      OneMoreSettled(before, db.settings, key, done, observed, desired, denied);
      rest, done := rest - {key}, done + {key};
    }
    assert done == desired.Keys + observed.Keys;
    assert db.settings == Converged(observed, desired, denied) by {
      forall key ensures key in db.settings <==> key in Converged(observed, desired, denied) {
        assert Settled(db.settings, key, done, observed, desired, denied);
      }
      forall key | key in db.settings ensures db.settings[key] == Converged(observed, desired, denied)[key] {
        assert Settled(db.settings, key, done, observed, desired, denied);
      }
    }
  }

  /** A key midway through a pass: converged once it has had its turn, as observed before. */
  ghost predicate Settled(
    now: Settings, key: string, done: set<string>, observed: Settings, desired: Settings, denied: set<string>)
  {
    var source := if key in done && key !in denied then desired else observed;
    (key in now <==> key in source) && (key in now ==> now[key] == source[key])
  }

  lemma OneMoreSettled(
    before: Settings, now: Settings, key: string, done: set<string>,
    observed: Settings, desired: Settings, denied: set<string>)
    requires forall k :: Settled(before, k, done, observed, desired, denied)
    requires Settled(now, key, done + {key}, observed, desired, denied)
    requires forall k :: k != key ==> (k in now <==> k in before) && (k in now ==> now[k] == before[k])
    ensures forall k :: Settled(now, k, done + {key}, observed, desired, denied)
  {
    forall k ensures Settled(now, k, done + {key}, observed, desired, denied) {
      assert Settled(before, k, done, observed, desired, denied);
    }
  }

  /** Key by key: one that may not be changed stays as it was, any other is as declared or gone. */
  lemma ConvergedKeyByKey(observed: Settings, desired: Settings, denied: set<string>, key: string)
    ensures var now := Converged(observed, desired, denied);
      && (key in denied ==> (key in now <==> key in observed) && (key in now ==> now[key] == observed[key]))
      && (key !in denied ==> (key in now <==> key in desired) && (key in now ==> now[key] == desired[key]))
    ensures key in Differing(observed, desired) <==>
      if key in observed then key !in desired || desired[key] != observed[key] else key in desired
  {
  }

  /**
   The next pass attempts exactly the refused keys again; with none refused
   the settings are the declared ones and it issues nothing.
   */
  lemma NextPassAttemptsTheRefused(observed: Settings, desired: Settings, denied: set<string>)
    ensures var now := Converged(observed, desired, denied);
      && Differing(now, desired) == Differing(observed, desired) * denied
      && (Differing(observed, desired) !! denied ==> now == desired && Differing(now, desired) == {})
  {
    var now := Converged(observed, desired, denied);
    if Differing(observed, desired) !! denied {
      forall key ensures (key in now <==> key in desired) && (key in now ==> now[key] == desired[key]) {
        assert key in denied && key in observed.Keys + desired.Keys ==> !Differs(observed, desired, key);
      }
    }
  }
}

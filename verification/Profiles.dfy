/** profiles.json: what a valid file is, how it is loaded, and which profile a request
    selects. */
module Profiles {
  import opened Prelude
  import opened Text
  import opened ModelAlias

  const INHERIT_ENV := "inherit-env"
  const OFFICIAL := "official"
  const RESERVED: set<string> := {INHERIT_ENV, "<active-session>", "<draft>"}

  datatype Auth = Auth(mode: string, key: string, keyEnv: string)

  datatype Egress = Egress(mode: string, url: string)

  datatype Profile = Profile(
    provider: string,
    baseURL: string,
    auth: Option<Auth>,
    aliases: Table,
    headers: Table,
    egress: Egress)

  datatype File = File(dflt: string, profiles: map<string, Profile>)

  /** What url.Parse makes of a text, if anything. */
  datatype Url = Url(scheme: string, host: string, hostname: string)

  type Urls = string -> Option<Url>

  function Lowered(s: string): string {
    ToLower(TrimSpace(s))
  }

  predicate Blank(s: string) {
    TrimSpace(s) == ""
  }

  // ----- Valid files -----

  predicate BaseURLOk(raw: string, urls: Urls) {
    Blank(raw) ||
    (urls(TrimSpace(raw)).Some?
     && ToLower(urls(TrimSpace(raw)).value.scheme) in {"http", "https"} && urls(TrimSpace(raw)).value.host != "")
  }

  /** No auth block, or a known mode with exactly one source for the key. */
  predicate AuthOk(auth: Option<Auth>) {
    auth.None? ||
    (Lowered(auth.value.mode) in {"ccwrap_bearer", "ccwrap_x_api_key"}
     && Blank(auth.value.key) != Blank(auth.value.keyEnv))
  }

  function SchemesFor(mode: string): set<string> {
    match mode
    case "http" => {"http", "https"}
    case "socks5" => {"socks5"}
    case "socks5h" => {"socks5h"}
    case _ => {}
  }

  predicate BearsURL(mode: string) {
    mode in {"http", "socks5", "socks5h"}
  }

  predicate EgressOk(e: Egress, urls: Urls) {
    var mode := Lowered(e.mode);
    if mode in {"", "inherit", "direct"} then Blank(e.url)
    else
      && BearsURL(mode) && !Blank(e.url) && urls(TrimSpace(e.url)).Some?
      && ToLower(urls(TrimSpace(e.url)).value.scheme) in SchemesFor(mode)
  }

  predicate ProfileOk(name: string, p: Profile, urls: Urls) {
    name !in RESERVED && BaseURLOk(p.baseURL, urls) && AuthOk(p.auth) && EgressOk(p.egress, urls)
  }

  predicate Resolves(dflt: string, names: set<string>) {
    var d := TrimSpace(dflt);
    d == "" || d == INHERIT_ENV || d in names
  }

  predicate Valid(f: File, urls: Urls) {
    Resolves(f.dflt, f.profiles.Keys) && forall n | n in f.profiles :: ProfileOk(n, f.profiles[n], urls)
  }

  // ----- The validator -----

  datatype Fault =
    | ReservedName
    | BadBaseURL
    | NoKey
    | TwoKeys
    | PassthroughMode
    | UnknownAuthMode
    | UselessURL
    | MissingURL
    | UnparsedURL
    | WrongScheme
    | UnknownEgressMode

  datatype Violation = BadDefault | InProfile(name: string, fault: Fault)

  ghost predicate Blames(items: seq<Violation>, name: string) {
    exists v :: v in items && v.InProfile? && v.name == name
  }

  /** What each complaint about an auth block means. */
  predicate AuthFault(a: Auth, f: Fault) {
    var known := Lowered(a.mode) in {"ccwrap_bearer", "ccwrap_x_api_key"};
    match f
    case NoKey => known && Blank(a.key) && Blank(a.keyEnv)
    case TwoKeys => known && !Blank(a.key) && !Blank(a.keyEnv)
    case PassthroughMode => Lowered(a.mode) == "passthrough"
    case UnknownAuthMode => !known && Lowered(a.mode) != "passthrough"
    case _ => false
  }

  /** What each complaint about an egress means. */
  predicate EgressFault(e: Egress, urls: Urls, f: Fault) {
    var mode := Lowered(e.mode);
    match f
    case UselessURL => mode in {"", "inherit", "direct"} && !Blank(e.url)
    case MissingURL => BearsURL(mode) && Blank(e.url)
    case UnparsedURL => BearsURL(mode) && !Blank(e.url) && urls(TrimSpace(e.url)).None?
    case WrongScheme => BearsURL(mode) && urls(TrimSpace(e.url)).Some?
                        && ToLower(urls(TrimSpace(e.url)).value.scheme) !in SchemesFor(mode)
    case UnknownEgressMode => !BearsURL(mode) && mode !in {"", "inherit", "direct"}
    case _ => false
  }

  method ValidateAuth(name: string, auth: Option<Auth>) returns (items: seq<Violation>)
    ensures items == [] <==> AuthOk(auth)
    ensures items == [] <==>
            auth.None? || (ToLower(TrimSpace(auth.value.mode)) in {"ccwrap_bearer", "ccwrap_x_api_key"}
                           && (TrimSpace(auth.value.key) == "" <==> TrimSpace(auth.value.keyEnv) != ""))
    ensures forall v | v in items :: v.InProfile? && v.name == name && auth.Some? && AuthFault(auth.value, v.fault)
  {
    hide TrimSpace, ToLower;
    items := [];
    if auth.None? {
      return;
    }
    var mode := Lowered(auth.value.mode);
    var hasKey, hasKeyEnv := !Blank(auth.value.key), !Blank(auth.value.keyEnv);
    if mode == "ccwrap_bearer" || mode == "ccwrap_x_api_key" {
      if !hasKey && !hasKeyEnv {
        items := items + [InProfile(name, NoKey)];
      }
      if hasKey && hasKeyEnv {
        items := items + [InProfile(name, TwoKeys)];
      }
    } else if mode == "passthrough" {
      items := [InProfile(name, PassthroughMode)];
    } else {
      items := [InProfile(name, UnknownAuthMode)];
    }
  }

  method ValidateEgress(name: string, e: Egress, urls: Urls) returns (items: seq<Violation>)
    ensures items == [] <==> EgressOk(e, urls)
    ensures var mode, u := ToLower(TrimSpace(e.mode)), urls(TrimSpace(e.url));
            items == [] <==>
              || (mode in {"", "inherit", "direct"} && TrimSpace(e.url) == "")
              || (TrimSpace(e.url) != "" && u.Some?
                  && match mode
                     case "http" => ToLower(u.value.scheme) in {"http", "https"}
                     case "socks5" => ToLower(u.value.scheme) == "socks5"
                     case "socks5h" => ToLower(u.value.scheme) == "socks5h"
                     case _ => false)
    ensures forall v | v in items :: v.InProfile? && v.name == name && EgressFault(e, urls, v.fault)
  {
    hide TrimSpace, ToLower;
    var mode := Lowered(e.mode);
    items := [];
    if mode == "" || mode == "inherit" || mode == "direct" {
      if !Blank(e.url) {
        items := [InProfile(name, UselessURL)];
      }
    } else if mode == "http" || mode == "socks5" || mode == "socks5h" {
      if Blank(e.url) {
        return [InProfile(name, MissingURL)];
      }
      var u := urls(TrimSpace(e.url));
      if u.None? {
        return [InProfile(name, UnparsedURL)];
      }
      if ToLower(u.value.scheme) !in SchemesFor(mode) {
        return [InProfile(name, WrongScheme)];
      }
    } else {
      return [InProfile(name, UnknownEgressMode)];
    }
  }

  method ValidateBaseURL(name: string, raw: string, urls: Urls) returns (items: seq<Violation>)
    ensures items == [] <==> BaseURLOk(raw, urls)
    ensures var u := urls(TrimSpace(raw));
            items == [] <==>
              TrimSpace(raw) == "" || (u.Some? && ToLower(u.value.scheme) in {"http", "https"} && u.value.host != "")
    ensures forall v | v in items :: v.InProfile? && v.name == name
  {
    hide TrimSpace, ToLower;
    if Blank(raw) {
      return [];
    }
    var u := urls(TrimSpace(raw));
    if u.None? {
      return [InProfile(name, BadBaseURL)];
    }
    var scheme := ToLower(u.value.scheme);
    if (scheme != "http" && scheme != "https") || u.value.host == "" {
      return [InProfile(name, BadBaseURL)];
    }
    return [];
  }

  method ValidateProfile(name: string, p: Profile, urls: Urls) returns (items: seq<Violation>)
    ensures items == [] <==> ProfileOk(name, p, urls)
    ensures name in {"inherit-env", "<active-session>", "<draft>"} ==> InProfile(name, ReservedName) in items
    ensures forall v | v in items :: v.InProfile? && v.name == name
  {
    hide BaseURLOk, AuthOk, EgressOk;
    items := if name in RESERVED then [InProfile(name, ReservedName)] else [];
    var more := ValidateBaseURL(name, p.baseURL, urls);
    items := items + more;
    more := ValidateAuth(name, p.auth);
    items := items + more;
    more := ValidateEgress(name, p.egress, urls);
    items := items + more;
  }

  /** Every broken rule is reported, in whatever order the profiles are ranged over: the
      report names the default exactly when it does not resolve, and a profile exactly
      when something is wrong with it. */
  method Validate(f: File, urls: Urls) returns (items: seq<Violation>)
    ensures items == [] <==> Valid(f, urls)
    ensures BadDefault in items <==>
            TrimSpace(f.dflt) !in f.profiles && TrimSpace(f.dflt) != "" && TrimSpace(f.dflt) != "inherit-env"
    ensures forall n :: Blames(items, n) <==> n in f.profiles && !ProfileOk(n, f.profiles[n], urls)
  {
    hide ProfileOk, Resolves, Blames, TrimSpace;
    items := [];
    NoItems();
    if !Resolves(f.dflt, f.profiles.Keys) {
      items := items + [BadDefault];
    }
    var rest := f.profiles.Keys;
    while rest != {}
      invariant rest <= f.profiles.Keys
      invariant BadDefault in items <==> !Resolves(f.dflt, f.profiles.Keys)
      invariant forall n :: Blames(items, n) <==> n in f.profiles && n !in rest && !ProfileOk(n, f.profiles[n], urls)
      decreases |rest|
    {
      var name :| name in rest;
      var more := ValidateProfile(name, f.profiles[name], urls);
      MoreItems(items, more, name);
      items := items + more;
      rest := rest - {name};
    }
    SomeItem(items);
    ResolvesIff(f);
  }

  lemma {:induction false} ResolvesIff(f: File)
    ensures Resolves(f.dflt, f.profiles.Keys) <==>
            TrimSpace(f.dflt) in f.profiles || TrimSpace(f.dflt) == "" || TrimSpace(f.dflt) == "inherit-env"
  {
    hide TrimSpace;
  }

  lemma {:induction false} NoItems()
    ensures forall n :: !Blames([], n) && !Blames([] + [BadDefault], n)
  {
  }

  lemma {:induction false} MoreItems(items: seq<Violation>, more: seq<Violation>, name: string)
    requires forall v | v in more :: v.InProfile? && v.name == name
    ensures BadDefault in items + more <==> BadDefault in items
    ensures forall n :: Blames(items + more, n) <==> Blames(items, n) || (n == name && more != [])
  {
    if more != [] {
      assert more[0] in items + more;
    }
    forall n | Blames(items, n) ensures Blames(items + more, n) {
      var v :| v in items && v.InProfile? && v.name == n;
      assert v in items + more;
    }
  }

  lemma {:induction false} SomeItem(items: seq<Violation>)
    ensures items != [] <==> BadDefault in items || exists n :: Blames(items, n)
  {
    if items != [] {
      assert items[0] in items;
      if items[0].InProfile? {
        assert Blames(items, items[0].name);
      }
    }
  }

  // ----- Alias tables as they are read -----

  /** Names under which the alias parser expects a whole table, not a model. */
  const ALIAS_WRAPPERS: set<string> := {"modelAliases", "model_aliases", "ccwrap"}

  predicate HasBlank(t: Table, keys: set<string>)
    requires keys <= t.Keys
  {
    exists k :: k in keys && (Blank(k) || Blank(t[k]))
  }

  predicate NoBlanks(t: Table) {
    !HasBlank(t, t.Keys)
  }

  /** Whether the alias parser takes the table. */
  predicate Coerces(t: Table) {
    t.Keys !! ALIAS_WRAPPERS && NoBlanks(t)
  }

  lemma {:induction false} NoAliasesCoerce()
    ensures Coerces(map[]) && Tidy(map[]) && Steady(map[])
  {
  }

  predicate Tidy(t: Table) {
    forall k | k in t :: TrimSpace(k) == k && TrimSpace(t[k]) == t[k]
  }

  /** No two names fall together by trimming. */
  predicate NamesApart(t: Table) {
    forall k, k' | k in t && k' in t && TrimSpace(k) == TrimSpace(k') :: k == k'
  }

  function Spellings(t: Table, name: string): set<string> {
    set k | k in t && TrimSpace(k) == name
  }

  function Names(t: Table): set<string> {
    set k | k in t :: TrimSpace(k)
  }

  /** The table as it is read: trimmed, and of names equal once trimmed the first spelling
      wins. */
  function Coerced(t: Table): Table {
    map name | name in Names(t) ::
      assert Spellings(t, name) != {} by { var k :| k in t && TrimSpace(k) == name; assert k in Spellings(t, name); }
      TrimSpace(t[Least(Spellings(t, name))])
  }

  /** The parser's loop, over the entries in any order: it fails exactly when the table does
      not coerce, and makes what `Coerced` makes of it unless two names fall together. */
  method CoerceAliases(t: Table) returns (r: Option<Table>)
    ensures r.Some? <==> Coerces(t)
    ensures r.Some? <==>
            && "modelAliases" !in t && "model_aliases" !in t && "ccwrap" !in t
            && forall k | k in t :: TrimSpace(k) != "" && TrimSpace(t[k]) != ""
    ensures r.Some? ==> Cleans(r.value, t)
    ensures r.Some? && NamesApart(t) ==> r.value == Coerced(t)
  {
    hide TrimSpace, Coerced, CleansOn, HasBlank, NamesApart;
    NothingBlank(t);
    CoercesIff(t);
    if !(t.Keys !! ALIAS_WRAPPERS) {
      return None;
    }
    var out: Table := map[];
    var rest := t.Keys;
    while rest != {}
      invariant rest <= t.Keys && CleansOn(out, t, t.Keys - rest) && !HasBlank(t, t.Keys - rest)
      decreases |rest|
    {
      var k :| k in rest;
      BlankMore(t, t.Keys - rest, k);
      if Blank(k) || Blank(t[k]) {
        return None;
      }
      CleansMore(out, t, t.Keys - rest, k);
      assert t.Keys - (rest - {k}) == t.Keys - rest + {k};
      out := out[TrimSpace(k) := TrimSpace(t[k])];
      rest := rest - {k};
    }
    assert t.Keys - rest == t.Keys;
    if NamesApart(t) {
      OneCleaning(out, t);
    }
    return Some(out);
  }

  lemma {:induction false} CoercesIff(t: Table)
    ensures Coerces(t) <==>
            && "modelAliases" !in t && "model_aliases" !in t && "ccwrap" !in t
            && forall k | k in t :: TrimSpace(k) != "" && TrimSpace(t[k]) != ""
  {
    hide TrimSpace;
  }

  lemma {:induction false} NothingBlank(t: Table)
    ensures t.Keys - t.Keys == {} && CleansOn(map[], t, {}) && !HasBlank(t, {})
  {
  }

  lemma {:induction false} BlankMore(t: Table, keys: set<string>, k: string)
    requires keys <= t.Keys && k in t
    ensures HasBlank(t, keys + {k}) <==> HasBlank(t, keys) || Blank(k) || Blank(t[k])
    ensures HasBlank(t, keys + {k}) ==> HasBlank(t, t.Keys)
  {
    hide TrimSpace;
    if Blank(k) || Blank(t[k]) {
      assert k in keys + {k};
    }
    if HasBlank(t, keys) {
      var b :| b in keys && (Blank(b) || Blank(t[b]));
      assert b in keys + {k};
    }
  }

  lemma {:induction false} CoercedAt(t: Table, k: string)
    requires k in t
    ensures TrimSpace(k) in Coerced(t)
    ensures exists k' :: k' in t && TrimSpace(k') == TrimSpace(k) && Coerced(t)[TrimSpace(k)] == TrimSpace(t[k'])
  {
    hide TrimSpace, IsLeast;
    assert TrimSpace(k) in Names(t);
    assert k in Spellings(t, TrimSpace(k));
    var w := Least(Spellings(t, TrimSpace(k)));
    assert w in Spellings(t, TrimSpace(k)) by { LeastIn(Spellings(t, TrimSpace(k))); }
  }

  lemma {:induction false} LeastIn(names: set<string>)
    requires names != {}
    ensures Least(names) in names
  {
    hide LessEq;
  }

  /** What is read is one reading of the entries, and the only one when no two names fall
      together. */
  lemma {:induction false} CoercedCleans(t: Table)
    ensures Cleans(Coerced(t), t)
  {
    hide TrimSpace, Coerced;
    forall name | name in Coerced(t)
      ensures exists k :: k in t.Keys && TrimSpace(k) == name && TrimSpace(t[k]) == Coerced(t)[name]
    {
      CoercedNames(t, name);
      var k :| k in t && TrimSpace(k) == name;
      CoercedAt(t, k);
    }
    forall k | k in t.Keys ensures TrimSpace(k) in Coerced(t) {
      CoercedAt(t, k);
    }
  }

  lemma {:induction false} CoercedNames(t: Table, name: string)
    requires name in Coerced(t)
    ensures exists k :: k in t && TrimSpace(k) == name
  {
    hide TrimSpace, Least;
  }

  lemma {:induction false} OneCleaning(c: Table, t: Table)
    requires Cleans(c, t) && NamesApart(t)
    ensures c == Coerced(t)
  {
    hide TrimSpace, Coerced;
    CoercedCleans(t);
    var d := Coerced(t);
    forall name ensures name in c <==> name in d {
    }
    forall name | name in c ensures c[name] == d[name] {
    }
  }

  lemma {:induction false} TidyIsCoerced(t: Table)
    ensures Tidy(t) <==> Coerced(t) == t
  {
    hide TrimSpace, Coerced;
    if Tidy(t) {
      TidyCleans(t);
      OneCleaning(t, t);
    }
    CoercedIsTidy(t);
  }

  lemma {:induction false} TidyCleans(t: Table)
    requires Tidy(t)
    ensures Cleans(t, t) && NamesApart(t)
  {
    hide TrimSpace;
    forall k | k in t ensures exists k' :: k' in t.Keys && TrimSpace(k') == k && TrimSpace(t[k']) == t[k] {
      assert k in t.Keys;
    }
  }

  lemma {:induction false} CoercedIsTidy(t: Table)
    ensures Tidy(Coerced(t))
  {
    hide TrimSpace, Coerced;
    CoercedCleans(t);
    var c := Coerced(t);
    forall k | k in c ensures TrimSpace(k) == k && TrimSpace(c[k]) == c[k] {
      var k' :| k' in t.Keys && TrimSpace(k') == k && TrimSpace(t[k']) == c[k];
      TrimIdempotent(k');
      TrimIdempotent(t[k']);
    }
  }

  /** Reading trims, so a second reading finds nothing to do. */
  lemma {:induction false} CoercedTwice(t: Table)
    ensures Tidy(Coerced(t)) && Coerced(Coerced(t)) == Coerced(t)
  {
    hide Tidy, Coerced;
    CoercedIsTidy(t);
    TidyIsCoerced(Coerced(t));
  }

  /** No name reads as one of the wrappers, with or without white space around it. */
  predicate Steady(t: Table) {
    forall k | k in t :: TrimSpace(k) !in ALIAS_WRAPPERS
  }

  /** A table that was read once can be written and read again exactly if it is steady:
      what was read only for the space around a name is not read a second time. */
  lemma {:induction false} CoercedCoercesIffSteady(t: Table)
    requires Coerces(t)
    ensures Coerces(Coerced(t)) <==> Steady(t)
    ensures Steady(Coerced(t)) <==> Steady(t)
    ensures NoBlanks(Coerced(t))
  {
    hide TrimSpace, Coerced;
    CoercedCleans(t);
    CoercedTwice(t);
    var c := Coerced(t);
    forall k | k in c ensures !Blank(k) && !Blank(c[k]) {
      var k' :| k' in t.Keys && TrimSpace(k') == k && TrimSpace(t[k']) == c[k];
      assert k' in t;
    }
    if !Steady(t) {
      var k :| k in t && TrimSpace(k) in ALIAS_WRAPPERS;
      assert TrimSpace(k) in c;
    }
    if t.Keys * ALIAS_WRAPPERS == {} && !(c.Keys !! ALIAS_WRAPPERS) {
      var k :| k in c && k in ALIAS_WRAPPERS;
      var k' :| k' in t.Keys && TrimSpace(k') == k;
    }
  }

  // ----- On disk -----

  /** What the path holds: nothing, text that is no profiles file, or a decoded one. */
  datatype Disk = Missing | Corrupt | Raw(dflt: string, profiles: map<string, Profile>)

  function Decoded(d: Disk): File
    requires d.Raw?
  {
    File(if d.dflt == "" then INHERIT_ENV else d.dflt, d.profiles)
  }

  function Encoded(f: File): Disk {
    Raw(f.dflt, f.profiles)
  }

  function Parsed(p: Profile): Profile {
    p.(aliases := Coerced(p.aliases))
  }

  /** The file with its alias tables as they are read. */
  function Read(f: File): File {
    f.(profiles := map n | n in f.profiles :: Parsed(f.profiles[n]))
  }

  predicate AllCoerce(f: File) {
    forall n | n in f.profiles :: Coerces(f.profiles[n].aliases)
  }

  /** A missing file is no error. */
  function Load(d: Disk, urls: Urls): Result<Option<File>, ()> {
    match d
    case Missing => Ok(None)
    case Corrupt => Err(())
    case Raw(_, _) =>
      if AllCoerce(Decoded(d)) && Valid(Read(Decoded(d)), urls) then Ok(Some(Read(Decoded(d)))) else Err(())
  }

  /** The validator does not look at aliases. */
  lemma {:induction false} ReadValid(f: File, urls: Urls)
    ensures Valid(Read(f), urls) <==> Valid(f, urls)
  {
    hide BaseURLOk, AuthOk, EgressOk, Coerced, Resolves;
    assert Read(f).profiles.Keys == f.profiles.Keys;
    forall n | n in f.profiles ensures ProfileOk(n, Read(f).profiles[n], urls) <==> ProfileOk(n, f.profiles[n], urls) {
      assert Read(f).profiles[n] == Parsed(f.profiles[n]);
    }
  }

  /** The writers check a file with the validator alone. What they write can be read back
      exactly when its alias tables coerce as well, and comes back as it was exactly when
      besides that they are trimmed and there is a default. */
  lemma {:induction false} EncodedLoads(f: File, urls: Urls)
    ensures Load(Encoded(f), urls).Ok? <==> Valid(f, urls) && AllCoerce(f)
    ensures Load(Encoded(f), urls) == Ok(Some(f)) <==>
            Valid(f, urls) && AllCoerce(f) && f.dflt != "" && forall n | n in f.profiles :: Tidy(f.profiles[n].aliases)
  {
    hide ProfileOk, Coerces, Coerced, Tidy;
    Trimmed(INHERIT_ENV);
    ReadValid(Decoded(Encoded(f)), urls);
    ReadIsSameIffTidy(f);
  }

  lemma {:induction false} ReadIsSameIffTidy(f: File)
    ensures Read(f) == f <==> forall n | n in f.profiles :: Tidy(f.profiles[n].aliases)
  {
    hide Coerced, Tidy;
    forall n | n in f.profiles ensures Parsed(f.profiles[n]) == f.profiles[n] <==> Tidy(f.profiles[n].aliases) {
      TidyIsCoerced(f.profiles[n].aliases);
    }
    if Read(f) == f {
      forall n | n in f.profiles ensures Tidy(f.profiles[n].aliases) {
        assert Read(f).profiles[n] == Parsed(f.profiles[n]);
      }
    }
    if forall n | n in f.profiles :: Tidy(f.profiles[n].aliases) {
      assert Read(f).profiles == f.profiles;
    }
  }

  // ----- Selection -----

  datatype Selection = Inherit | Chosen(name: string) | NoFile | Unknown | Ambiguous

  /** The profiles of a provider group. */
  function Group(f: File, provider: string): set<string> {
    set n | n in f.profiles && ToLower(TrimSpace(f.profiles[n].provider)) == ToLower(provider)
  }

  method CollectGroup(f: File, provider: string) returns (inGroup: set<string>)
    ensures inGroup == Group(f, provider)
  {
    hide TrimSpace, ToLower;
    inGroup := {};
    var rest := f.profiles.Keys;
    while rest != {}
      invariant rest <= f.profiles.Keys && inGroup == Group(f, provider) - rest
      decreases |rest|
    {
      var name :| name in rest;
      if ToLower(TrimSpace(f.profiles[name].provider)) == ToLower(provider) {
        inGroup := inGroup + {name};
      }
      rest := rest - {name};
    }
  }

  method Select(file: Option<File>, requested: string) returns (s: Selection)
    ensures s == Selected(file, requested)
  {
    hide TrimSpace, Group;
    var req := TrimSpace(requested);
    if file.None? {
      return if req == "" || req == INHERIT_ENV then Inherit else NoFile;
    }
    var f := file.value;
    if req == "" {
      req := TrimSpace(f.dflt);
      if req == "" || req == INHERIT_ENV {
        return Inherit;
      }
    }
    if req == INHERIT_ENV {
      return Inherit;
    }
    if req in f.profiles {
      return Chosen(req);
    }
    var inGroup := CollectGroup(f, req);
    if inGroup == {} {
      return Unknown;
    }
    if |inGroup| == 1 {
      var one :| one in inGroup;
      assert one in {Only(inGroup)};
      return Chosen(one);
    }
    return if TrimSpace(f.dflt) in inGroup then Chosen(TrimSpace(f.dflt)) else Ambiguous;
  }

  ghost function Only(g: set<string>): (n: string)
    requires |g| == 1
    ensures g == {n}
  {
    var n :| n in g;
    assert |g - {n}| == 0;
    n
  }

  ghost function Selected(file: Option<File>, requested: string): Selection {
    var asked := TrimSpace(requested);
    match file
    case None => if asked == "" || asked == INHERIT_ENV then Inherit else NoFile
    case Some(f) =>
      var req := if asked == "" then TrimSpace(f.dflt) else asked;
      if req == "" || req == INHERIT_ENV then Inherit
      else if req in f.profiles then Chosen(req)
      else
        var g := Group(f, req);
        if g == {} then Unknown
        else if |g| == 1 then Chosen(Only(g))
        else if TrimSpace(f.dflt) in g then Chosen(TrimSpace(f.dflt))
        else Ambiguous
  }

  /** Launching without --profile never fails on a missing or loadable file, and gives the
      profile the default names if it names one. */
  lemma {:induction false} DefaultAlwaysSelects(d: Disk, urls: Urls)
    requires Load(d, urls).Ok?
    ensures Selected(Load(d, urls).value, "") ==
            match Load(d, urls).value
            case None => Inherit
            case Some(f) =>
              var name := TrimSpace(f.dflt);
              if name != "" && name in f.profiles then Chosen(name) else Inherit
  {
    hide TrimSpace, Group, ProfileOk, Selected, Coerces, Read;
    if d.Raw? {
      ResolvedSelects(Read(Decoded(d)), urls);
    } else {
      NothingSelects();
    }
  }

  lemma {:induction false} NothingSelects()
    ensures Selected(None, "") == Inherit
  {
    Trimmed("");
  }

  lemma {:induction false} ResolvedSelects(f: File, urls: Urls)
    requires Valid(f, urls)
    ensures var name := TrimSpace(f.dflt);
            Selected(Some(f), "") == if name != "" && name in f.profiles then Chosen(name) else Inherit
  {
    hide TrimSpace, Group, ProfileOk;
    assert TrimSpace("") == "" by { Trimmed(""); }
    var name := TrimSpace(f.dflt);
    if name in f.profiles {
      NotReserved(name, f.profiles[name], urls);
    }
  }

  lemma {:induction false} NotReserved(name: string, p: Profile, urls: Urls)
    requires ProfileOk(name, p, urls)
    ensures name !in RESERVED
  {
  }

  /** An explicit request never falls back to the environment, and what it does select is
      the profile of that name or a profile of that provider. */
  lemma {:induction false} ExplicitNeverInherits(file: Option<File>, requested: string)
    requires TrimSpace(requested) != "" && TrimSpace(requested) != INHERIT_ENV
    ensures var s, req := Selected(file, requested), TrimSpace(requested);
            && !s.Inherit?
            && (s.NoFile? <==> file.None?)
            && (s.Chosen? ==>
                  && s.name in file.value.profiles
                  && (s.name == req || s.name in Group(file.value, req)))
            && (file.Some? && req in file.value.profiles ==> s == Chosen(req))
  {
    hide TrimSpace, ToLower;
  }

  predicate OfProvider(f: File, n: string, provider: string) {
    n in f.profiles && ToLower(TrimSpace(f.profiles[n].provider)) == ToLower(provider)
  }

  /** An explicit request, case by case: a profile of that name; else the only profile of that
      provider; else, of several, the one that is the default; and else nothing, for one
      reason or the other. */
  lemma {:induction false} ExplicitSelection(f: File, requested: string)
    requires TrimSpace(requested) != "" && TrimSpace(requested) != "inherit-env"
    ensures var s, req, d := Selected(Some(f), requested), TrimSpace(requested), TrimSpace(f.dflt);
            && (req in f.profiles ==> s == Chosen(req))
            && (req !in f.profiles && (forall n :: !OfProvider(f, n, req)) ==> s == Unknown)
            && (req !in f.profiles ==>
                  forall n | OfProvider(f, n, req) && (forall m :: OfProvider(f, m, req) ==> m == n) :: s == Chosen(n))
            && (req !in f.profiles ==>
                  forall m, n | OfProvider(f, m, req) && OfProvider(f, n, req) && m != n ::
                    s == if OfProvider(f, d, req) then Chosen(d) else Ambiguous)
  {
    hide TrimSpace, ToLower;
    var s, req, d := Selected(Some(f), requested), TrimSpace(requested), TrimSpace(f.dflt);
    if req !in f.profiles {
      var g := Group(f, req);
      assert forall n :: n in g <==> OfProvider(f, n, req);
      forall n | OfProvider(f, n, req) && (forall m :: OfProvider(f, m, req) ==> m == n) ensures s == Chosen(n) {
        assert g == {n};
      }
      forall m, n | OfProvider(f, m, req) && OfProvider(f, n, req) && m != n
        ensures s == if OfProvider(f, d, req) then Chosen(d) else Ambiguous
      {
        TwoMembers(g, m, n);
      }
    }
  }

  lemma {:induction false} TwoMembers(g: set<string>, m: string, n: string)
    requires m in g && n in g && m != n
    ensures |g| >= 2
  {
    assert |g| == |g - {m}| + 1 && n in g - {m};
  }

  /** An empty request is one for the default, and a blank default or the word for it leaves
      the environment alone; so does asking for that by name. */
  lemma {:induction false} ImplicitSelection(file: Option<File>, requested: string)
    ensures TrimSpace(requested) == "inherit-env" ==> Selected(file, requested) == Inherit
    ensures TrimSpace(requested) == "" && file.Some? ==>
              Selected(file, requested) ==
              if TrimSpace(file.value.dflt) in {"", "inherit-env"} then Inherit else Selected(file, file.value.dflt)
    ensures file.None? ==>
              Selected(file, requested) == if TrimSpace(requested) in {"", "inherit-env"} then Inherit else NoFile
  {
    hide TrimSpace, Group;
  }
}

/** What each writer of profiles.json makes of the file it loaded, and when that can be
    written back. */
module ProfileEdits {
  import opened Prelude
  import opened Text
  import opened ModelAlias
  import opened Profiles

  datatype Refusal = Usage | Conflict | NotFound | Rejected | NotWritten

  const OFFICIAL_PROFILE: Profile := Profile("anthropic", "", None, map[], map[], Egress("inherit", ""))

  predicate NameOk(name: string) {
    name != "" && TrimSpace(name) == name
  }

  // ----- The store behind the ui and the sessions' API -----

  datatype AddRequest = AddRequest(name: string, profile: Profile, setDefault: bool)

  /** Aside from auth, whose rules are the validator's, only a missing base URL and a proxy
      URL under a mode that has none are refused before the file is read. */
  function AddChecked(req: AddRequest): Option<Refusal> {
    if !NameOk(req.name) || Blank(req.profile.baseURL) then Some(Usage)
    else
      var mode := Lowered(req.profile.egress.mode);
      if mode != "" && mode != "http" && !Blank(req.profile.egress.url) then Some(Rejected) else None
  }

  function Added(f: Option<File>, req: AddRequest): Result<File, Refusal> {
    if AddChecked(req).Some? then Err(AddChecked(req).value)
    else
      var base := if f.Some? then f.value else File(OFFICIAL, map[OFFICIAL := OFFICIAL_PROFILE]);
      if req.name in base.profiles then Err(Conflict)
      else Ok(File(if req.setDefault then req.name else base.dflt, base.profiles[req.name := req.profile]))
  }

  datatype KeySource = Unchanged | InlineKey(key: string) | EnvKey(name: string) | UnknownSource

  datatype AuthEdit = KeepAuth | RemoveAuth | MalformedAuth | PatchAuth(mode: Option<string>, source: KeySource)

  datatype EditRequest = EditRequest(
    name: string,
    provider: Option<string>,
    baseURL: Option<string>,
    auth: AuthEdit,
    aliases: Option<Table>,
    egressMode: Option<string>,
    egressURL: Option<string>,
    setDefault: bool)

  function PatchedAuth(auth: Option<Auth>, mode: Option<string>, source: KeySource): Auth {
    var a := if auth.Some? then auth.value else Auth("", "", "");
    var b := if mode.Some? then a.(mode := mode.value) else a;
    match source
    case InlineKey(k) => b.(key := k, keyEnv := "")
    case EnvKey(n) => b.(key := "", keyEnv := n)
    case _ => b
  }

  function EditedAuth(auth: Option<Auth>, e: AuthEdit): Result<Option<Auth>, Refusal> {
    match e
    case KeepAuth => Ok(auth)
    case RemoveAuth => Ok(None)
    case MalformedAuth => Err(Rejected)
    case PatchAuth(mode, source) =>
      if source.UnknownSource? then Err(Rejected) else Ok(Some(PatchedAuth(auth, mode, source)))
  }

  function EditedEgress(e: Egress, mode: Option<string>, url: Option<string>): Result<Egress, Refusal> {
    var moved := match mode
                 case None => e
                 case Some(m) => Egress(m, if BearsURL(Lowered(m)) then e.url else "");
    match url
    case None => Ok(moved)
    case Some(u) =>
      var m := Lowered(moved.mode);
      if m != "" && !BearsURL(m) && !Blank(u) then Err(Rejected) else Ok(moved.(url := u))
  }

  /** The fields the request carries, put into the profile. */
  function EditedProfile(p: Profile, req: EditRequest): Result<Profile, Refusal> {
    match EditedAuth(p.auth, req.auth)
    case Err(r) => Err(r)
    case Ok(auth) =>
      match EditedEgress(p.egress, req.egressMode, req.egressURL)
      case Err(r) => Err(r)
      case Ok(egress) =>
        Ok(p.(provider := if req.provider.Some? then req.provider.value else p.provider,
              baseURL := if req.baseURL.Some? then req.baseURL.value else p.baseURL,
              auth := auth,
              aliases := if req.aliases.Some? then req.aliases.value else p.aliases,
              egress := egress))
  }

  /** A mode, other than none, that takes no proxy URL. */
  predicate URLless(mode: string) {
    Lowered(mode) != "" && !BearsURL(Lowered(mode))
  }

  /** What the request does not carry is as it was. */
  predicate EditKeeps(p: Profile, req: EditRequest, q: Profile) {
    && q.headers == p.headers
    && (req.provider.None? ==> q.provider == p.provider)
    && (req.baseURL.None? ==> q.baseURL == p.baseURL)
    && (req.auth.KeepAuth? ==> q.auth == p.auth)
    && (req.auth.PatchAuth? ==> PatchKeeps(p.auth, req.auth.mode, req.auth.source, q.auth))
    && (req.aliases.None? ==> q.aliases == p.aliases)
    && (req.egressMode.None? ==> q.egress.mode == p.egress.mode)
    && (req.egressMode.None? && req.egressURL.None? ==> q.egress == p.egress)
  }

  predicate PatchKeeps(a: Option<Auth>, mode: Option<string>, source: KeySource, b: Option<Auth>) {
    && (a.Some? && b.Some? && mode.None? ==> b.value.mode == a.value.mode)
    && (a.Some? && b.Some? && source.Unchanged? ==> b.value.key == a.value.key && b.value.keyEnv == a.value.keyEnv)
  }

  /** What the request carries is there. */
  predicate EditSets(req: EditRequest, q: Profile) {
    && (req.provider.Some? ==> q.provider == req.provider.value)
    && (req.baseURL.Some? ==> q.baseURL == req.baseURL.value)
    && (req.auth.RemoveAuth? ==> q.auth == None)
    && (req.auth.PatchAuth? ==> PatchSets(req.auth.mode, req.auth.source, q.auth))
    && (req.aliases.Some? ==> q.aliases == req.aliases.value)
    && (req.egressMode.Some? ==> q.egress.mode == req.egressMode.value)
    && (req.egressURL.Some? ==> q.egress.url == req.egressURL.value)
  }

  predicate PatchSets(mode: Option<string>, source: KeySource, b: Option<Auth>) {
    && b.Some? && (mode.Some? ==> b.value.mode == mode.value)
    && (source.InlineKey? ==> b.value.key == source.key && b.value.keyEnv == "")
    && (source.EnvKey? ==> b.value.key == "" && b.value.keyEnv == source.name)
  }

  lemma {:induction false} AuthEdited(a: Option<Auth>, e: AuthEdit)
    ensures EditedAuth(a, e).Err? <==> e.MalformedAuth? || (e.PatchAuth? && e.source.UnknownSource?)
    ensures EditedAuth(a, e).Ok? ==>
              var b := EditedAuth(a, e).value;
              && (e.KeepAuth? ==> b == a) && (e.RemoveAuth? ==> b == None)
              && (e.PatchAuth? ==> PatchKeeps(a, e.mode, e.source, b) && PatchSets(e.mode, e.source, b))
  {
  }

  lemma {:induction false} EgressEdited(e: Egress, mode: Option<string>, url: Option<string>)
    ensures EditedEgress(e, mode, url).Err? <==>
            url.Some? && !Blank(url.value) && URLless(if mode.Some? then mode.value else e.mode)
    ensures EditedEgress(e, mode, url).Ok? ==>
              var g := EditedEgress(e, mode, url).value;
              && (mode.None? ==> g.mode == e.mode) && (mode.None? && url.None? ==> g == e)
              && (mode.Some? ==> g.mode == mode.value) && (url.Some? ==> g.url == url.value)
              && (mode.Some? && URLless(mode.value) ==> Blank(g.url))
  {
    hide Lowered, TrimSpace;
    Trimmed("");
  }

  /** What an edit refuses, and that it changes what the request carries and nothing else. */
  lemma {:induction false} EditDoes(p: Profile, req: EditRequest)
    ensures EditedProfile(p, req).Err? <==>
            || req.auth.MalformedAuth? || (req.auth.PatchAuth? && req.auth.source.UnknownSource?)
            || (req.egressURL.Some? && !Blank(req.egressURL.value)
                && URLless(if req.egressMode.Some? then req.egressMode.value else p.egress.mode))
    ensures EditedProfile(p, req).Ok? ==>
              && EditKeeps(p, req, EditedProfile(p, req).value) && EditSets(req, EditedProfile(p, req).value)
              && (req.egressMode.Some? && URLless(req.egressMode.value) ==>
                    Blank(EditedProfile(p, req).value.egress.url))
  {
    hide EditedAuth, EditedEgress, PatchKeeps, PatchSets, URLless, Blank;
    AuthEdited(p.auth, req.auth);
    EgressEdited(p.egress, req.egressMode, req.egressURL);
  }

  /** Applying the same edit again succeeds and changes nothing more. */
  lemma {:induction false} EditIdempotent(p: Profile, req: EditRequest)
    requires EditedProfile(p, req).Ok?
    ensures EditedProfile(EditedProfile(p, req).value, req) == EditedProfile(p, req)
  {
    hide TrimSpace, ToLower;
  }

  function Edited(f: Option<File>, req: EditRequest): Result<File, Refusal> {
    if !NameOk(req.name) then Err(Usage)
    else if f.None? || req.name !in f.value.profiles then Err(NotFound)
    else
      match EditedProfile(f.value.profiles[req.name], req)
      case Err(r) => Err(r)
      case Ok(p) => Ok(File(if req.setDefault then req.name else f.value.dflt, f.value.profiles[req.name := p]))
  }

  /** The profile that takes over as default: official if it is left, else the first by
      name, else none. */
  predicate IsFallback(dflt: string, left: set<string>) {
    if OFFICIAL in left then dflt == OFFICIAL
    else if left == {} then dflt == INHERIT_ENV
    else IsLeast(dflt, left)
  }

  function Fallback(left: set<string>): (d: string)
    ensures IsFallback(d, left)
  {
    if OFFICIAL in left then OFFICIAL else if left == {} then INHERIT_ENV else Least(left)
  }

  lemma {:induction false} FallbackUnique(d: string, left: set<string>)
    requires IsFallback(d, left)
    ensures d == Fallback(left)
  {
    hide LessEq;
    if OFFICIAL !in left && left != {} {
      LeastUnique(d, Fallback(left), left);
    }
  }

  function Removed(f: Option<File>, name: string, confirm: string): Result<File, Refusal> {
    if !NameOk(name) || TrimSpace(confirm) != name then Err(Usage)
    else if f.None? || name !in f.value.profiles then Err(NotFound)
    else
      var left := f.value.profiles - {name};
      Ok(File(if name == f.value.dflt then Fallback(left.Keys) else f.value.dflt, left))
  }

  function DefaultSet(f: Option<File>, name: string): Result<File, Refusal> {
    if !NameOk(name) then Err(Usage)
    else if f.None? then Err(NotFound)
    else if name == INHERIT_ENV then
      Ok(File(OFFICIAL, if OFFICIAL in f.value.profiles then f.value.profiles
                        else f.value.profiles[OFFICIAL := OFFICIAL_PROFILE]))
    else if name in f.value.profiles then Ok(f.value.(dflt := name))
    else Err(NotFound)
  }

  function ModelDefaultSet(f: Option<File>, name: string, target: string): Result<File, Refusal> {
    if f.None? || name !in f.value.profiles then Err(NotFound)
    else
      var p := f.value.profiles[name];
      var aliases := p.aliases[DEFAULT_KEY := target];
      if !Acceptable(aliases) then Err(Rejected)
      else Ok(f.value.(profiles := f.value.profiles[name := p.(aliases := aliases)]))
  }

  // ----- The command line -----

  datatype KeyFlag = NoKeyFlag | KeyFlag(key: string) | KeyEnvFlag(name: string) | KeyStdin(read: Option<string>)

  datatype Flags = Flags(
    name: string,
    provider: Option<string>,
    baseURL: Option<string>,
    authMode: Option<string>,
    key: KeyFlag,
    egressMode: Option<string>,
    egressURL: Option<string>,
    aliases: Option<Table>,
    headers: Option<Table>,
    setDefault: bool)

  function Given(o: Option<string>): string {
    if o.Some? then o.value else ""
  }

  function GivenTable(o: Option<Table>): Table {
    if o.Some? then o.value else map[]
  }

  /** What alias pairs parse to: both sides are trimmed, and none is empty. */
  predicate PairsTable(t: Table) {
    Tidy(t) && "" !in t && forall k | k in t :: t[k] != ""
  }

  /** The rules both commands check before anything is read. */
  predicate FlagsOk(o: Flags) {
    var mode := Lowered(Given(o.egressMode));
    && NameOk(o.name) && PairsTable(GivenTable(o.aliases))
    && (BearsURL(mode) ==> !Blank(Given(o.egressURL)))
    && (mode == "inherit" || mode == "direct" ==> Blank(Given(o.egressURL)))
  }

  predicate AddFlagsOk(o: Flags) {
    var mode := Lowered(Given(o.authMode));
    && FlagsOk(o) && !Blank(Given(o.baseURL)) && !Blank(Given(o.authMode)) && mode != "passthrough"
    && (mode in {"ccwrap_bearer", "ccwrap_x_api_key"} ==> !o.key.NoKeyFlag?)
  }

  function CliAdded(f: Option<File>, o: Flags): Result<File, Refusal> {
    if !AddFlagsOk(o) then Err(Usage)
    else
      var base := if f.Some? then f.value else File(INHERIT_ENV, map[]);
      if o.name in base.profiles then Err(Conflict)
      else if o.key.KeyStdin? && o.key.read.None? then Err(NotWritten)
      else
        var auth := match o.key
                    case KeyEnvFlag(n) => Auth(Given(o.authMode), "", n)
                    case KeyFlag(k) => Auth(Given(o.authMode), k, "")
                    case KeyStdin(r) => Auth(Given(o.authMode), Given(r), "")
                    case NoKeyFlag => Auth(Given(o.authMode), "", "");
        var p := Profile(Given(o.provider), Given(o.baseURL), Some(auth), GivenTable(o.aliases), GivenTable(o.headers),
                         Egress(Given(o.egressMode), Given(o.egressURL)));
        Ok(File(if o.setDefault then o.name else base.dflt, base.profiles[o.name := p]))
  }

  function CliEditedAuth(auth: Option<Auth>, o: Flags): Result<Option<Auth>, Refusal> {
    if o.authMode.Some? && Lowered(o.authMode.value) == "passthrough" then Err(Usage)
    else if o.authMode.None? && o.key.NoKeyFlag? then Ok(auth)
    else
      match o.key
      case NoKeyFlag => Ok(Some(PatchedAuth(auth, o.authMode, Unchanged)))
      case KeyFlag(k) => Ok(Some(PatchedAuth(auth, o.authMode, InlineKey(k))))
      case KeyEnvFlag(n) => Ok(Some(PatchedAuth(auth, o.authMode, EnvKey(n))))
      case KeyStdin(read) =>
        if read.None? then Err(NotWritten) else Ok(Some(PatchedAuth(auth, o.authMode, InlineKey(read.value))))
  }

  /** Aliases and headers are merged into those there are; the rest is replaced. */
  function CliEditedProfile(p: Profile, o: Flags): Result<Profile, Refusal> {
    match CliEditedAuth(p.auth, o)
    case Err(r) => Err(r)
    case Ok(auth) =>
      var moved := match o.egressMode
                   case None => p.egress
                   case Some(m) => Egress(m, if BearsURL(Lowered(m)) then p.egress.url else "");
      Ok(p.(provider := if o.provider.Some? then o.provider.value else p.provider,
            baseURL := if o.baseURL.Some? then o.baseURL.value else p.baseURL,
            auth := auth,
            aliases := p.aliases + GivenTable(o.aliases),
            headers := p.headers + GivenTable(o.headers),
            egress := if o.egressURL.Some? then moved.(url := o.egressURL.value) else moved))
  }

  function FlagSource(key: KeyFlag): KeySource {
    match key
    case NoKeyFlag => Unchanged
    case KeyFlag(k) => InlineKey(k)
    case KeyEnvFlag(n) => EnvKey(n)
    case KeyStdin(read) => InlineKey(Given(read))
  }

  /** A table with another put over it: the entries given, and the others as they were. */
  predicate MergedInto(merged: Table, was: Table, given: Table) {
    && (forall k | k in given :: k in merged && merged[k] == given[k])
    && (forall k | k in was && k !in given :: k in merged && merged[k] == was[k])
    && (forall k | k in merged :: k in was || k in given)
  }

  predicate FlagsKeep(p: Profile, o: Flags, q: Profile) {
    && (o.provider.None? ==> q.provider == p.provider)
    && (o.baseURL.None? ==> q.baseURL == p.baseURL)
    && (if o.authMode.None? && o.key.NoKeyFlag? then q.auth == p.auth
        else PatchKeeps(p.auth, o.authMode, FlagSource(o.key), q.auth))
    && (o.egressMode.None? ==> q.egress.mode == p.egress.mode)
    && (o.egressMode.None? && o.egressURL.None? ==> q.egress == p.egress)
  }

  predicate FlagsSet(o: Flags, q: Profile) {
    && (o.provider.Some? ==> q.provider == o.provider.value)
    && (o.baseURL.Some? ==> q.baseURL == o.baseURL.value)
    && (o.authMode.Some? || !o.key.NoKeyFlag? ==> PatchSets(o.authMode, FlagSource(o.key), q.auth))
    && (o.egressMode.Some? ==> q.egress.mode == o.egressMode.value)
    && (o.egressURL.Some? ==> q.egress.url == o.egressURL.value)
  }

  lemma {:induction false} CliAuthEdited(a: Option<Auth>, o: Flags)
    ensures CliEditedAuth(a, o).Err? <==>
            || (o.authMode.Some? && Lowered(o.authMode.value) == "passthrough")
            || (o.key.KeyStdin? && o.key.read.None?)
    ensures CliEditedAuth(a, o).Ok? ==>
              var b := CliEditedAuth(a, o).value;
              if o.authMode.None? && o.key.NoKeyFlag? then b == a
              else PatchKeeps(a, o.authMode, FlagSource(o.key), b) && PatchSets(o.authMode, FlagSource(o.key), b)
  {
    hide Lowered;
  }

  /** What the command line's edit refuses, and that it changes what the flags name and
      nothing else: aliases and headers no flag names survive. */
  lemma {:induction false} CliEditDoes(p: Profile, o: Flags)
    ensures CliEditedProfile(p, o).Err? <==>
            || (o.authMode.Some? && Lowered(o.authMode.value) == "passthrough")
            || (o.key.KeyStdin? && o.key.read.None?)
    ensures CliEditedProfile(p, o).Ok? ==>
              var q := CliEditedProfile(p, o).value;
              && MergedInto(q.aliases, p.aliases, GivenTable(o.aliases))
              && MergedInto(q.headers, p.headers, GivenTable(o.headers))
              && FlagsKeep(p, o, q) && FlagsSet(o, q)
              && (o.egressMode.Some? && !BearsURL(Lowered(o.egressMode.value)) && o.egressURL.None? ==>
                    q.egress.url == "")
  {
    hide CliEditedAuth, PatchKeeps, PatchSets, Lowered;
    CliAuthEdited(p.auth, o);
  }

  function CliEdited(f: Option<File>, o: Flags): Result<File, Refusal> {
    if !FlagsOk(o) then Err(Usage)
    else if f.None? || o.name !in f.value.profiles then Err(NotFound)
    else
      match CliEditedProfile(f.value.profiles[o.name], o)
      case Err(r) => Err(r)
      case Ok(p) => Ok(File(if o.setDefault then o.name else f.value.dflt, f.value.profiles[o.name := p]))
  }

  /** The request to the store that says what the flags say. */
  function AsRequest(o: Flags): EditRequest {
    var source := FlagSource(o.key);
    EditRequest(o.name, o.provider, o.baseURL,
                if o.authMode.None? && o.key.NoKeyFlag? then KeepAuth else PatchAuth(o.authMode, source),
                None, o.egressMode, o.egressURL, o.setDefault)
  }

  /** The command line's edit mirrors the store's: where the store accepts, both make the
      same profile, and where the store refuses, the command line's would not validate. */
  lemma {:induction false} CliEditMirrorsStore(p: Profile, o: Flags, urls: Urls)
    requires !(o.authMode.Some? && Lowered(o.authMode.value) == "passthrough")
    requires !(o.key.KeyStdin? && o.key.read.None?) && o.aliases == None && o.headers == None
    ensures CliEditedProfile(p, o).Ok?
    ensures var cli, api := CliEditedProfile(p, o).value, EditedProfile(p, AsRequest(o));
            if api.Ok? then api.value == cli else !EgressOk(cli.egress, urls)
  {
    hide TrimSpace, ToLower;
    assert p.aliases + map[] == p.aliases && p.headers + map[] == p.headers;
  }

  /** The part of `rm` that runs under the lock; whether the profile is the default is
      looked at only before. */
  function CliRemoved(f: Option<File>, name: string): Result<File, Refusal> {
    if !NameOk(name) then Err(Usage)
    else if f.None? || name !in f.value.profiles then Err(NotFound)
    else Ok(File(if name == f.value.dflt then INHERIT_ENV else f.value.dflt, f.value.profiles - {name}))
  }

  function CliDefaultSet(f: Option<File>, name: string): Result<File, Refusal> {
    if !NameOk(name) then Err(Usage)
    else if f.None? then Err(NotFound)
    else if name == INHERIT_ENV || name in f.value.profiles then Ok(f.value.(dflt := name))
    else Err(NotFound)
  }

  // ----- First launch -----

  /** The official profile is put back if it is gone, and the old "no profile" default
      moves to it. Only undecodable text and a file that would not validate fail. */
  function Ensured(d: Disk, urls: Urls): Result<Disk, Refusal> {
    match d
    case Missing => Ok(Encoded(File(OFFICIAL, map[OFFICIAL := OFFICIAL_PROFILE])))
    case Corrupt => Err(Rejected)
    case Raw(_, _) =>
      var f := Decoded(d);
      var g := File(if f.dflt == INHERIT_ENV then OFFICIAL else f.dflt,
                    if OFFICIAL in f.profiles then f.profiles else f.profiles[OFFICIAL := OFFICIAL_PROFILE]);
      if g == f then Ok(d) else if Valid(g, urls) then Ok(Encoded(g)) else Err(Rejected)
  }

  datatype Seed = Seed(name: string, baseURL: string, provider: string, apiKey: string, authToken: string)

  /** The migrated profile keeps the key itself; an API key beats a token. */
  function SeedProfile(s: Seed): Profile {
    var auth := if s.apiKey != "" then Some(Auth("ccwrap_x_api_key", s.apiKey, ""))
                else if s.authToken != "" then Some(Auth("ccwrap_bearer", s.authToken, ""))
                else None;
    Profile(s.provider, s.baseURL, auth, map[], map[], Egress("inherit", ""))
  }

  predicate HasBaseURL(f: File, baseURL: string) {
    exists n :: n in f.profiles && TrimSpace(f.profiles[n].baseURL) == baseURL
  }

  predicate FirstParty(u: Url) {
    ToLower(TrimRight(TrimSpace(u.hostname), c => c == '.')) in {"api.anthropic.com", "api-staging.anthropic.com"}
  }

  /** What a launch environment must offer before a migration is tried: a third-party
      upstream and a credential. */
  predicate Migratable(s: Seed, urls: Urls) {
    && NameOk(s.name) && s.name != INHERIT_ENV
    && s.baseURL != "" && TrimSpace(s.baseURL) == s.baseURL
    && urls(s.baseURL).Some? && urls(s.baseURL).value.hostname != "" && !FirstParty(urls(s.baseURL).value)
    && (s.apiKey != "" || s.authToken != "")
  }

  /** A seed for an upstream some profile already has, or under a taken name, is skipped;
      without a file the seed becomes the file, and is not validated. */
  function Migrated(f: Option<File>, s: Seed, urls: Urls): Result<File, Refusal> {
    if !Migratable(s, urls) then Err(Usage)
    else if f.None? then Ok(File(s.name, map[s.name := SeedProfile(s)]))
    else if HasBaseURL(f.value, s.baseURL) || s.name in f.value.profiles then Err(Conflict)
    else Ok(f.value.(profiles := f.value.profiles[s.name := SeedProfile(s)]))
  }

  // ----- When a write goes through -----

  lemma {:induction false} OfficialOk(urls: Urls)
    ensures ProfileOk(OFFICIAL, OFFICIAL_PROFILE, urls)
    ensures TrimSpace(OFFICIAL) == OFFICIAL && TrimSpace(INHERIT_ENV) == INHERIT_ENV
  {
    hide EgressOk, TrimSpace;
    Trimmed("");
    Trimmed(OFFICIAL);
    Trimmed(INHERIT_ENV);
    EgressInherits(urls);
  }

  /** Removing a profile of a valid file fails validation exactly when the default stops
      resolving: it names the profile only once trimmed, or the profile that takes over, the
      first left by name, is itself named with white space around it and has no namesake
      without. */
  lemma {:induction false} RemoveWrites(f: File, name: string, urls: Urls)
    requires Valid(f, urls) && NameOk(name) && name in f.profiles
    ensures var r := Removed(Some(f), name, name);
            && r.Ok? && r.value.profiles == f.profiles - {name}
            && (Valid(r.value, urls) <==>
                  if f.dflt != name then TrimSpace(f.dflt) != name
                  else
                    var left := f.profiles.Keys - {name};
                    || OFFICIAL in left
                    || forall n | n in left && IsLeast(n, left) ::
                         TrimSpace(n) in left || TrimSpace(n) in {"", INHERIT_ENV})
  {
    hide ProfileOk, TrimSpace, LessEq, IsLeast;
    var left := f.profiles - {name};
    OfficialOk(urls);
    assert left.Keys == f.profiles.Keys - {name};
    assert name !in RESERVED by { NotReserved(name, f.profiles[name], urls); }
    assert forall n | n in left :: ProfileOk(n, left[n], urls);
    if OFFICIAL !in left && left.Keys != {} {
      FallbackIsLeast(left.Keys);
    }
  }

  lemma {:induction false} FallbackIsLeast(left: set<string>)
    requires OFFICIAL !in left && left != {}
    ensures Fallback(left) in left
    ensures forall n | n in left && IsLeast(n, left) :: n == Fallback(left)
    ensures IsLeast(Fallback(left), left)
  {
    hide LessEq;
    forall n | n in left && IsLeast(n, left) ensures n == Fallback(left) {
      LeastUnique(n, Fallback(left), left);
    }
  }

  /** Names that came through the store or the command line are trimmed; over such names a
      removal goes through unless the default was written with spaces around this name. */
  lemma {:induction false} RemoveWritesOverTrimmedNames(f: File, name: string, urls: Urls)
    requires Valid(f, urls) && NameOk(name) && name in f.profiles && forall n | n in f.profiles :: NameOk(n)
    ensures Valid(Removed(Some(f), name, name).value, urls) <==> f.dflt == name || TrimSpace(f.dflt) != name
  {
    hide ProfileOk, TrimSpace, LessEq, IsLeast, Removed;
    RemoveWrites(f, name, urls);
  }

  /** A hand-written default with a space after the name: the profile cannot be removed. */
  lemma {:induction false} RemoveRefusedByUntrimmedDefault(p: Profile, urls: Urls)
    requires ProfileOk("glm", p, urls)
    ensures var f := File("glm ", map["glm" := p]);
            Valid(f, urls) && Removed(Some(f), "glm", "glm").Ok? && !Valid(Removed(Some(f), "glm", "glm").value, urls)
  {
    hide ProfileOk, Fallback, TrimSpace;
    TrimUnique("", "glm", " ");
    assert "" + "glm" + " " == "glm ";
    Trimmed("glm");
    var f := File("glm ", map["glm" := p]);
    assert "glm" in f.profiles;
    RemoveWrites(f, "glm", urls);
  }

  /** Removing a profile just added puts the file back as it was. */
  lemma {:induction false} AddThenRemoveRestores(f: File, req: AddRequest, urls: Urls)
    requires Valid(f, urls) && !req.setDefault && Added(Some(f), req).Ok? && Valid(Added(Some(f), req).value, urls)
    ensures Removed(Some(Added(Some(f), req).value), req.name, req.name) == Ok(f)
  {
    hide ProfileOk, TrimSpace, Lowered, Fallback;
    var g := Added(Some(f), req).value;
    NotReserved(req.name, g.profiles[req.name], urls);
    assert f.dflt != req.name;
    assert f.profiles[req.name := req.profile] - {req.name} == f.profiles;
  }

  /** Choosing a default always goes through, and the default chosen resolves. */
  lemma {:induction false} SetDefaultWrites(f: File, name: string, urls: Urls)
    requires Valid(f, urls) && NameOk(name)
    ensures DefaultSet(Some(f), name).Ok? <==> name == INHERIT_ENV || name in f.profiles
    ensures DefaultSet(Some(f), name).Ok? ==>
              var g := DefaultSet(Some(f), name).value;
              Valid(g, urls) && g.dflt in g.profiles && Selected(Some(g), "") == Chosen(g.dflt)
  {
    hide ProfileOk, TrimSpace, Selected;
    OfficialOk(urls);
    if DefaultSet(Some(f), name).Ok? {
      var g := DefaultSet(Some(f), name).value;
      assert forall n | n in g.profiles :: ProfileOk(n, g.profiles[n], urls);
      ResolvedSelects(g, urls);
    }
  }

  lemma {:induction false} ModelDefaultWrites(f: File, name: string, target: string, urls: Urls)
    requires Valid(f, urls) && ModelDefaultSet(Some(f), name, target).Ok?
    ensures Valid(ModelDefaultSet(Some(f), name, target).value, urls)
  {
    hide TrimSpace, ToLower, Acceptable;
  }

  /** On a missing or valid file the official profile is always put in place: the result is
      valid, keeps every profile there was, and a second run changes nothing. */
  lemma {:induction false} EnsureWrites(d: Disk, urls: Urls)
    requires Load(d, urls).Ok?
    ensures Ensured(d, urls).Ok?
    ensures var e := Ensured(d, urls).value;
            && e.Raw? && Load(e, urls).Ok? && OFFICIAL in e.profiles && e.dflt != INHERIT_ENV && e.dflt != ""
            && Ensured(e, urls) == Ok(e)
            && (d.Raw? ==> forall n | n in d.profiles :: n in e.profiles && e.profiles[n] == d.profiles[n])
            && (d.Raw? && OFFICIAL in d.profiles ==> e.profiles == d.profiles)
            && (d.Raw? && d.dflt != "" && d.dflt != INHERIT_ENV ==> e.dflt == d.dflt)
            && (!d.Raw? || d.dflt == "" || d.dflt == "inherit-env" ==> e.dflt == "official")
            && e.profiles.Keys == (if d.Raw? then d.profiles.Keys else {}) + {"official"}
            && (!d.Raw? || OFFICIAL !in d.profiles ==>
                  e.profiles["official"] == Profile("anthropic", "", None, map[], map[], Egress("inherit", "")))
  {
    hide ProfileOk, TrimSpace, Coerces, Read;
    OfficialOk(urls);
    NoAliasesCoerce();
    if d.Raw? {
      var f := Decoded(d);
      ReadValid(f, urls);
      var g := File(if f.dflt == INHERIT_ENV then OFFICIAL else f.dflt,
                    if OFFICIAL in f.profiles then f.profiles else f.profiles[OFFICIAL := OFFICIAL_PROFILE]);
      assert forall n | n in g.profiles :: ProfileOk(n, g.profiles[n], urls);
      assert Valid(g, urls);
      ReadValid(g, urls);
    } else {
      var g := File(OFFICIAL, map[OFFICIAL := OFFICIAL_PROFILE]);
      assert forall n | n in g.profiles :: ProfileOk(n, g.profiles[n], urls);
      assert Valid(g, urls);
      ReadValid(g, urls);
    }
  }

  lemma {:induction false} EgressInherits(urls: Urls)
    ensures EgressOk(Egress("inherit", ""), urls)
  {
    hide TrimSpace;
    Trimmed("");
    Trimmed("inherit");
    assert ToLower("inherit") == "inherit";
  }

  /** A seed written where there was no file is a valid file exactly when its profile is. */
  lemma {:induction false} FreshSeedValidIff(s: Seed, urls: Urls)
    requires Migratable(s, urls)
    ensures Valid(Migrated(None, s, urls).value, urls) <==>
            && s.name !in RESERVED && BaseURLOk(s.baseURL, urls)
            && (s.apiKey != "" ==> !Blank(s.apiKey))
            && (s.apiKey == "" && s.authToken != "" ==> !Blank(s.authToken))
  {
    hide BaseURLOk, Lowered, TrimSpace, FirstParty;
    var f := Migrated(None, s, urls).value;
    OfficialOk(urls);
    EgressInherits(urls);
    ModesAreThemselves();
    TrimIdempotent(s.name);
    assert TrimSpace("") == "" by { Trimmed(""); }
    assert s.name in f.profiles;
    assert Valid(f, urls) <==> ProfileOk(s.name, SeedProfile(s), urls);
  }

  lemma {:induction false} ModesAreThemselves()
    ensures Lowered("ccwrap_x_api_key") == "ccwrap_x_api_key" && Lowered("ccwrap_bearer") == "ccwrap_bearer"
  {
    hide TrimSpace, ToLower;
    ApiKeyModeIsItself();
    BearerModeIsItself();
  }

  lemma {:induction false} ApiKeyModeIsItself()
    ensures Lowered("ccwrap_x_api_key") == "ccwrap_x_api_key"
  {
    hide TrimSpace;
    Trimmed("ccwrap_x_api_key");
    assert ToLower("ccwrap_x_api_key") == "ccwrap_x_api_key";
  }

  lemma {:induction false} BearerModeIsItself()
    ensures Lowered("ccwrap_bearer") == "ccwrap_bearer"
  {
    hide TrimSpace;
    Trimmed("ccwrap_bearer");
    assert ToLower("ccwrap_bearer") == "ccwrap_bearer";
  }
}

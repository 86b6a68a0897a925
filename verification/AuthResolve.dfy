/** Whose credential goes upstream: the profile's, the environment's, or one a trusted
    Claude settings file carries. */
module AuthResolve {
  import opened Prelude
  import opened Text
  import Profiles

  type Env = map<string, string>

  const API_KEY := "ANTHROPIC_API_KEY"
  const AUTH_TOKEN := "ANTHROPIC_AUTH_TOKEN"
  const OAUTH_TOKEN := "CLAUDE_CODE_OAUTH_TOKEN"
  const UPSTREAM_API_KEY := "CCWRAP_UPSTREAM_API_KEY"
  const UPSTREAM_AUTH_TOKEN := "CCWRAP_UPSTREAM_AUTH_TOKEN"
  const CREDENTIALS: set<string> := {API_KEY, AUTH_TOKEN, OAUTH_TOKEN}
  const AMBIENT: set<string> := CREDENTIALS + {UPSTREAM_API_KEY, UPSTREAM_AUTH_TOKEN}

  // ----- The environment as a list and as a table -----

  function Cut(kv: string): (n: nat)
    ensures n <= |kv|
  {
    if kv == "" || kv[0] == '=' then 0 else 1 + Cut(kv[1..])
  }

  predicate IsPair(kv: string) {
    Cut(kv) < |kv|
  }

  function KeyOf(kv: string): string {
    kv[..Cut(kv)]
  }

  function ValueOf(kv: string): string
    requires IsPair(kv)
  {
    kv[Cut(kv) + 1..]
  }

  /** Later entries win; an entry without '=' counts for nothing. */
  function Table(env: seq<string>): Env {
    if env == [] then map[]
    else
      var kv := env[|env| - 1];
      var before := Table(env[..|env| - 1]);
      if IsPair(kv) then before[KeyOf(kv) := ValueOf(kv)] else before
  }

  method ToMap(env: seq<string>) returns (out: Env)
    ensures out == Table(env)
  {
    hide Cut;
    out := map[];
    for i := 0 to |env|
      invariant out == Table(env[..i])
    {
      assert env[..i + 1][..i] == env[..i];
      if IsPair(env[i]) {
        out := out[KeyOf(env[i]) := ValueOf(env[i])];
      }
    }
    assert env[..|env|] == env;
  }

  function Lookup(env: Env, k: string): string {
    if k in env then TrimSpace(env[k]) else ""
  }

  predicate IsAmbient(kv: string) {
    IsPair(kv) && Cut(kv) > 0 && KeyOf(kv) in AMBIENT
  }

  function Stripped(env: seq<string>): seq<string> {
    if env == [] then []
    else
      var kv := env[|env| - 1];
      Stripped(env[..|env| - 1]) + if IsAmbient(kv) then [] else [kv]
  }

  method StripAmbientAuthEnv(env: seq<string>) returns (out: seq<string>)
    ensures out == Stripped(env)
  {
    hide IsAmbient;
    out := [];
    for i := 0 to |env|
      invariant out == Stripped(env[..i])
    {
      assert env[..i + 1][..i] == env[..i];
      if !IsAmbient(env[i]) {
        out := out + [env[i]];
      }
    }
    assert env[..|env|] == env;
  }

  lemma {:induction false} TableExtends(env: seq<string>, kv: string)
    ensures Table(env + [kv]) == if IsPair(kv) then Table(env)[KeyOf(kv) := ValueOf(kv)] else Table(env)
  {
    assert (env + [kv])[..|env|] == env;
  }

  /** Stripping takes the ambient keys away and nothing else. */
  lemma {:induction false} StripDropsAmbient(env: seq<string>, k: string)
    ensures k in AMBIENT ==> k !in Table(Stripped(env))
    ensures k !in AMBIENT ==> (k in Table(Stripped(env)) <==> k in Table(env))
    ensures k !in AMBIENT && k in Table(env) ==> Table(Stripped(env))[k] == Table(env)[k]
  {
    hide Table, Stripped, IsAmbient, IsPair, KeyOf, ValueOf;
    if env == [] {
      NothingStripped();
    } else {
      var n := |env| - 1;
      StripDropsAmbient(env[..n], k);
      StripLast(env);
      AmbientPair(env[n]);
      TableExtends(Stripped(env[..n]), env[n]);
      assert env == env[..n] + [env[n]];
      TableExtends(env[..n], env[n]);
    }
  }

  lemma {:induction false} NothingStripped()
    ensures Stripped([]) == [] && Table([]) == map[]
  {
  }

  lemma {:induction false} StripLast(env: seq<string>)
    requires env != []
    ensures var n := |env| - 1;
            Stripped(env) == if IsAmbient(env[n]) then Stripped(env[..n]) else Stripped(env[..n]) + [env[n]]
  {
    hide IsAmbient;
    assert Stripped(env[..|env| - 1]) + [] == Stripped(env[..|env| - 1]);
  }

  lemma {:induction false} AmbientPair(kv: string)
    ensures IsAmbient(kv) <==> IsPair(kv) && KeyOf(kv) in AMBIENT
  {
    hide Cut;
    assert "" !in AMBIENT;
    assert Cut(kv) == 0 ==> KeyOf(kv) == "";
  }

  // ----- Trusted settings -----

  datatype Source =
    | GlobalConfig
    | UserSettings
    | FlagSettings
    | PolicySettings
    | ProjectSettings
    | LocalSettings
    | OtherSettings

  /** A settings file and its env block, which may not be a table of strings. */
  datatype Doc = Doc(source: Source, env: Result<Env, ()>)

  const ROUTING: set<string> := {"ANTHROPIC_BASE_URL", API_KEY, AUTH_TOKEN, OAUTH_TOKEN}
  const TRUSTED: seq<Source> := [GlobalConfig, UserSettings, FlagSettings, PolicySettings]

  /** Upper case, exact wherever the result is compared with ASCII text: besides a to z,
      only U+0131 and U+017F upper to an ASCII letter. */
  function UpperChar(c: char): char {
    if 'a' <= c <= 'z' then c - 'a' + 'A'
    else if c == '\U{0131}' then 'I'
    else if c == '\U{017f}' then 'S'
    else c
  }

  function ToUpper(s: string): (r: string)
    ensures |r| == |s| && forall i | 0 <= i < |s| :: r[i] == UpperChar(s[i])
  {
    seq(|s|, i requires 0 <= i < |s| => UpperChar(s[i]))
  }

  predicate IsRoutingKey(k: string) {
    ToUpper(k) in ROUTING
  }

  function Filtered(env: Env): Env {
    map k | k in env && IsRoutingKey(k) :: env[k]
  }

  /** The routing and auth entries of the documents of one source, in order. */
  function OfSource(docs: seq<Doc>, source: Source): seq<Env> {
    if docs == [] then []
    else
      var d := docs[|docs| - 1];
      OfSource(docs[..|docs| - 1], source) + if d.source == source && d.env.Ok? then [Filtered(d.env.value)] else []
  }

  function Merged(env: Env, layers: seq<Env>): Env {
    if layers == [] then env else Merged(env, layers[..|layers| - 1]) + layers[|layers| - 1]
  }

  /** The layers that count, weakest first. */
  function Layers(docs: seq<Doc>): seq<Env> {
    OfSource(docs, GlobalConfig) + OfSource(docs, UserSettings) + OfSource(docs, FlagSettings)
    + OfSource(docs, PolicySettings)
  }

  predicate Readable(docs: seq<Doc>) {
    forall d | d in docs && !d.source.OtherSettings? :: d.env.Ok?
  }

  lemma {:induction false} MergedConcat(env: Env, a: seq<Env>, b: seq<Env>)
    ensures Merged(env, a + b) == Merged(Merged(env, a), b)
    decreases |b|
  {
    if b == [] {
      assert a + b == a;
    } else {
      assert (a + b)[..|a + b| - 1] == a + b[..|b| - 1];
      MergedConcat(env, a, b[..|b| - 1]);
    }
  }

  lemma {:induction false} NextDoc(env: Env, docs: seq<Doc>, i: nat, source: Source)
    requires i < |docs|
    ensures docs[..i + 1] == docs[..i] + [docs[i]]
    ensures Merged(env, OfSource(docs[..i + 1], source)) ==
            if docs[i].source == source && docs[i].env.Ok?
            then Merged(env, OfSource(docs[..i], source)) + Filtered(docs[i].env.value)
            else Merged(env, OfSource(docs[..i], source))
  {
    hide Filtered;
    assert docs[..i + 1][..i] == docs[..i];
    var layers := OfSource(docs[..i], source);
    assert layers + [] == layers;
    if docs[i].env.Ok? {
      var layer := Filtered(docs[i].env.value);
      MergedConcat(env, layers, [layer]);
      OneLayer(Merged(env, layers), layer);
    }
  }

  /** One source's documents, merged over what there is. */
  method MergeSource(env0: Env, docs: seq<Doc>, source: Source) returns (env: Env, ok: bool)
    ensures ok <==> forall d | d in docs && d.source == source :: d.env.Ok?
    ensures ok ==> env == Merged(env0, OfSource(docs, source))
  {
    hide Filtered, Merged, OfSource;
    env := env0;
    var i := 0;
    NoDocs(env0, docs, source);
    while i < |docs|
      invariant i <= |docs| && env == Merged(env0, OfSource(docs[..i], source))
      invariant forall d | d in docs[..i] && d.source == source :: d.env.Ok?
    {
      NextDoc(env0, docs, i, source);
      var d := docs[i];
      if d.source == source {
        if d.env.Err? {
          return env, false;
        }
        env := env + Filtered(d.env.value);
      }
      i := i + 1;
    }
    assert docs[..i] == docs;
    ok := true;
  }

  lemma {:induction false} NoDocs(env: Env, docs: seq<Doc>, source: Source)
    ensures Merged(env, OfSource(docs[..0], source)) == env
  {
  }

  lemma {:induction false} OneLayer(env: Env, layer: Env)
    ensures Merged(env, [layer]) == env + layer
  {
    assert [layer][..0] == [];
  }

  method EffectiveProviderEnv(parent: Env, docs: seq<Doc>) returns (r: Result<Env, ()>)
    ensures r == if Readable(docs) then Ok(Merged(parent, Layers(docs))) else Err(())
  {
    hide Merged, OfSource;
    var env := parent;
    var i := 0;
    NoLayers(parent);
    while i < |TRUSTED|
      invariant i <= |TRUSTED|
      invariant env == Merged(parent, SourceLayers(docs, i))
      invariant forall d | d in docs && d.source in TRUSTED[..i] :: d.env.Ok?
    {
      var merged, ok := MergeSource(env, docs, TRUSTED[i]);
      if !ok {
        return Err(());
      }
      MergedConcat(parent, SourceLayers(docs, i), OfSource(docs, TRUSTED[i]));
      assert TRUSTED[..i + 1] == TRUSTED[..i] + [TRUSTED[i]];
      env := merged;
      i := i + 1;
    }
    AllLayers(docs);
    assert TRUSTED[..i] == TRUSTED;
    if exists d | d in docs :: (d.source == ProjectSettings || d.source == LocalSettings) && d.env.Err? {
      return Err(());
    }
    return Ok(env);
  }

  function SourceLayers(docs: seq<Doc>, n: nat): seq<Env>
    requires n <= |TRUSTED|
  {
    if n == 0 then [] else SourceLayers(docs, n - 1) + OfSource(docs, TRUSTED[n - 1])
  }

  lemma {:induction false} NoLayers(env: Env)
    ensures Merged(env, []) == env
  {
  }

  lemma {:induction false} AllLayers(docs: seq<Doc>)
    ensures SourceLayers(docs, |TRUSTED|) == Layers(docs)
  {
    hide OfSource;
    assert SourceLayers(docs, 0) == [];
    assert SourceLayers(docs, 1) == OfSource(docs, GlobalConfig);
    assert SourceLayers(docs, 2) == OfSource(docs, GlobalConfig) + OfSource(docs, UserSettings);
    assert SourceLayers(docs, 3) ==
           OfSource(docs, GlobalConfig) + OfSource(docs, UserSettings) + OfSource(docs, FlagSettings);
  }

  /** What the strongest layer that has a key says about it. */
  function Last(layers: seq<Env>, k: string): string {
    if layers == [] then ""
    else
      var top := layers[|layers| - 1];
      if k in top then TrimSpace(top[k]) else Last(layers[..|layers| - 1], k)
  }

  lemma {:induction false} MergedLookup(env: Env, layers: seq<Env>, k: string)
    requires k !in env
    ensures Lookup(Merged(env, layers), k) == Last(layers, k)
  {
    hide TrimSpace;
    if layers != [] {
      MergedLookup(env, layers[..|layers| - 1], k);
    }
  }

  // ----- Which credential -----

  datatype Mode = XAPIKey | Bearer

  datatype Cred = Cred(key: string, mode: Mode, oauth: bool)

  const SOURCES: seq<Cred> :=
    [Cred(API_KEY, XAPIKey, false), Cred(AUTH_TOKEN, Bearer, false), Cred(OAUTH_TOKEN, Bearer, true)]

  /** The header ccwrap sets upstream; an OAuth token comes with a beta header. */
  datatype Override = Override(mode: Mode, header: string, value: string, oauth: bool)

  datatype Auth = Passthrough | Overridden(override: Override)

  function HeaderFor(mode: Mode, secret: string, oauth: bool): Override {
    match mode
    case XAPIKey => Override(XAPIKey, "X-API-Key", secret, oauth)
    case Bearer => Override(Bearer, "Authorization", "Bearer " + secret, oauth)
  }

  function Found(env: Env, creds: seq<Cred>): seq<Cred> {
    if creds == [] then []
    else
      var c := creds[|creds| - 1];
      Found(env, creds[..|creds| - 1]) + if Lookup(env, c.key) != "" then [c] else []
  }

  /** ccwrap's own keys come first; of Claude's three, exactly one may be set. */
  function Resolved(parent: Env, env: Env): Result<Auth, ()> {
    if Lookup(parent, UPSTREAM_API_KEY) != "" then
      Ok(Overridden(HeaderFor(XAPIKey, Lookup(parent, UPSTREAM_API_KEY), false)))
    else if Lookup(parent, UPSTREAM_AUTH_TOKEN) != "" then
      Ok(Overridden(HeaderFor(Bearer, Lookup(parent, UPSTREAM_AUTH_TOKEN), false)))
    else
      var found := Found(env, SOURCES);
      if |found| > 1 then Err(())
      else if found == [] then Ok(Passthrough)
      else Ok(Overridden(HeaderFor(found[0].mode, Lookup(env, found[0].key), found[0].oauth)))
  }

  /** Which credential wins, and the header it makes: ccwrap's API key, then its token, then
      the one of Claude's three that is set; with two of them set there is none. */
  predicate ResolvesTo(parent: Env, env: Env, r: Result<Auth, ()>) {
    var own, token := Lookup(parent, "CCWRAP_UPSTREAM_API_KEY"), Lookup(parent, "CCWRAP_UPSTREAM_AUTH_TOKEN");
    var api, auth, oauth :=
      Lookup(env, "ANTHROPIC_API_KEY"), Lookup(env, "ANTHROPIC_AUTH_TOKEN"), Lookup(env, "CLAUDE_CODE_OAUTH_TOKEN");
    if own != "" then r == Ok(Overridden(Override(XAPIKey, "X-API-Key", own, false)))
    else if token != "" then r == Ok(Overridden(Override(Bearer, "Authorization", "Bearer " + token, false)))
    else if api == auth == oauth == "" then r == Ok(Passthrough)
    else if api != "" && auth == oauth == "" then r == Ok(Overridden(Override(XAPIKey, "X-API-Key", api, false)))
    else if auth != "" && api == oauth == "" then
      r == Ok(Overridden(Override(Bearer, "Authorization", "Bearer " + auth, false)))
    else if oauth != "" && api == auth == "" then
      r == Ok(Overridden(Override(Bearer, "Authorization", "Bearer " + oauth, true)))
    else r == Err(())
  }

  lemma {:induction false} ResolvedIs(parent: Env, env: Env)
    ensures ResolvesTo(parent, env, Resolved(parent, env))
  {
    hide Lookup, Found;
    FoundIs(env);
  }

  method ResolveAuthWithSources(parent: Env, env: Env) returns (r: Result<Auth, ()>)
    ensures r == Resolved(parent, env)
    ensures ResolvesTo(parent, env, r)
  {
    hide TrimSpace, ResolvesTo;
    ResolvedIs(parent, env);
    if Lookup(parent, UPSTREAM_API_KEY) != "" {
      return Ok(Overridden(HeaderFor(XAPIKey, Lookup(parent, UPSTREAM_API_KEY), false)));
    }
    if Lookup(parent, UPSTREAM_AUTH_TOKEN) != "" {
      return Ok(Overridden(HeaderFor(Bearer, Lookup(parent, UPSTREAM_AUTH_TOKEN), false)));
    }
    var found: seq<Cred> := [];
    var i := 0;
    while i < |SOURCES|
      invariant i <= |SOURCES| && found == Found(env, SOURCES[..i])
    {
      assert SOURCES[..i + 1][..i] == SOURCES[..i];
      if Lookup(env, SOURCES[i].key) != "" {
        found := found + [SOURCES[i]];
      }
      i := i + 1;
    }
    assert SOURCES[..i] == SOURCES;
    if |found| > 1 {
      return Err(());
    }
    if |found| == 0 {
      return Ok(Passthrough);
    }
    return Ok(Overridden(HeaderFor(found[0].mode, Lookup(env, found[0].key), found[0].oauth)));
  }

  lemma {:induction false} FoundIs(env: Env)
    ensures Found(env, SOURCES) ==
            (if Lookup(env, API_KEY) != "" then [SOURCES[0]] else [])
            + (if Lookup(env, AUTH_TOKEN) != "" then [SOURCES[1]] else [])
            + (if Lookup(env, OAUTH_TOKEN) != "" then [SOURCES[2]] else [])
  {
    hide Lookup;
    assert SOURCES[..2][..1] == SOURCES[..1];
    assert Found(env, SOURCES[..0]) == [];
    assert SOURCES[..1][..0] == SOURCES[..0];
    assert Found(env, SOURCES[..1]) == if Lookup(env, API_KEY) != "" then [SOURCES[0]] else [];
    assert Found(env, SOURCES[..2]) ==
           Found(env, SOURCES[..1]) + if Lookup(env, AUTH_TOKEN) != "" then [SOURCES[1]] else [];
  }

  // ----- A profile's own credential -----

  /** The env key a profile's auth mode travels under, "" for an unknown mode. */
  function ProfileAuthEnvKey(mode: string): string {
    match TrimSpace(ToLower(mode))
    case "ccwrap_bearer" => AUTH_TOKEN
    case "ccwrap_x_api_key" => API_KEY
    case _ => ""
  }

  /** The inline key, else the named variable of the launching environment. */
  function Secret(auth: Profiles.Auth, env: seq<string>): string {
    if TrimSpace(auth.key) != "" then TrimSpace(auth.key)
    else if TrimSpace(auth.keyEnv) != "" then Lookup(Table(env), TrimSpace(auth.keyEnv))
    else ""
  }

  /** The environment the resolver sees, the variable that was named but empty, and the key
      the profile's credential was put under. */
  datatype Overlay = Overlay(env: seq<string>, missing: string, key: string)

  function Overlaid(auth: Option<Profiles.Auth>, env: seq<string>): Overlay {
    match auth
    case None => Overlay(env, "", "")
    case Some(a) =>
      var secret, key := Secret(a, env), ProfileAuthEnvKey(a.mode);
      var missing := if TrimSpace(a.key) == "" && secret == "" then TrimSpace(a.keyEnv) else "";
      if key != "" && secret != "" then Overlay(Stripped(env) + [key + "=" + secret], missing, key)
      else Overlay(Stripped(env), missing, "")
  }

  method ApplyProfileOverlay(auth: Option<Profiles.Auth>, parentEnv: seq<string>) returns (o: Overlay)
    ensures o == Overlaid(auth, parentEnv)
    ensures auth.None? ==> o.env == parentEnv && o.missing == "" && o.key == ""
    ensures auth.Some? ==>
              && o.env[..|Stripped(parentEnv)|] == Stripped(parentEnv) <= o.env
              && (o.missing != "" <==> TrimSpace(auth.value.key) == "" && TrimSpace(auth.value.keyEnv) != ""
                                       && Lookup(Table(parentEnv), TrimSpace(auth.value.keyEnv)) == "")
              && (o.missing != "" ==> o.missing == TrimSpace(auth.value.keyEnv) && o.env == Stripped(parentEnv))
  {
    hide TrimSpace, ToLower;
    if auth.None? {
      return Overlay(parentEnv, "", "");
    }
    var a := auth.value;
    var envMap := ToMap(parentEnv);
    var secret := TrimSpace(a.key);
    var missing := "";
    BlankTrims();
    if secret == "" && TrimSpace(a.keyEnv) != "" {
      secret := Lookup(envMap, TrimSpace(a.keyEnv));
      if secret == "" {
        missing := TrimSpace(a.keyEnv);
      }
    }
    var env := StripAmbientAuthEnv(parentEnv);
    var key := ProfileAuthEnvKey(a.mode);
    if key != "" && secret != "" {
      return Overlay(env + [key + "=" + secret], missing, key);
    }
    return Overlay(env, missing, "");
  }

  lemma {:induction false} BlankTrims()
    ensures TrimSpace("") == ""
  {
  }

  /** The auth of a launch. The merged settings must not touch a credential the profile
      supplied, so the three credential keys are dropped and the profile's is put back. */
  function AuthOf(auth: Option<Profiles.Auth>, parentEnv: seq<string>, docs: seq<Doc>): Result<Auth, ()> {
    var o := Overlaid(auth, parentEnv);
    var env := Table(o.env);
    if !Readable(docs) then Err(())
    else
      var merged := Merged(env, Layers(docs));
      Resolved(env, if o.key == "" then merged else (merged - CREDENTIALS)[o.key := Lookup(env, o.key)])
  }

  method ResolveProfileAuth(auth: Option<Profiles.Auth>, parentEnv: seq<string>, docs: seq<Doc>)
    returns (r: Result<Auth, ()>)
    ensures r == AuthOf(auth, parentEnv, docs)
  {
    hide Overlaid, Resolved, Merged, Readable, Layers, TrimSpace;
    var o := ApplyProfileOverlay(auth, parentEnv);
    var env := ToMap(o.env);
    var provider := EffectiveProviderEnv(env, docs);
    if provider.Err? {
      return Err(());
    }
    var providerEnv := provider.value;
    if o.key != "" {
      OverlayHoldsSecret(auth, parentEnv);
      providerEnv := providerEnv - {API_KEY};
      providerEnv := providerEnv - {AUTH_TOKEN};
      providerEnv := providerEnv - {OAUTH_TOKEN};
      assert providerEnv == provider.value - CREDENTIALS;
      if Lookup(env, o.key) != "" {
        providerEnv := providerEnv[o.key := Lookup(env, o.key)];
      }
    }
    r := ResolveAuthWithSources(env, providerEnv);
  }

  lemma {:induction false} PairParts(k: string, v: string)
    requires '=' !in k
    ensures IsPair(k + "=" + v) && KeyOf(k + "=" + v) == k && ValueOf(k + "=" + v) == v
  {
    CutAfterKey(k, v);
  }

  lemma {:induction false} CutAfterKey(k: string, v: string)
    requires '=' !in k
    ensures Cut(k + "=" + v) == |k|
  {
    if k != "" {
      assert (k + "=" + v)[1..] == k[1..] + "=" + v;
      CutAfterKey(k[1..], v);
    }
  }

  lemma {:induction false} SecretTrimmed(auth: Profiles.Auth, env: seq<string>)
    ensures TrimSpace(Secret(auth, env)) == Secret(auth, env)
  {
    hide TrimSpace, Table;
    TrimIdempotent(auth.key);
    BlankTrims();
    if TrimSpace(auth.keyEnv) in Table(env) {
      TrimIdempotent(Table(env)[TrimSpace(auth.keyEnv)]);
    }
  }

  lemma {:induction false} OverlayHoldsSecret(auth: Option<Profiles.Auth>, env: seq<string>)
    requires Overlaid(auth, env).key != ""
    ensures var o := Overlaid(auth, env);
            && auth.Some? && o.key == ProfileAuthEnvKey(auth.value.mode) && o.key in {API_KEY, AUTH_TOKEN}
            && Secret(auth.value, env) != "" && Lookup(Table(o.env), o.key) == Secret(auth.value, env)
            && forall k | k in AMBIENT && k != o.key :: k !in Table(o.env)
  {
    hide TrimSpace, Table, Stripped, ToLower, Cut, IsPair, KeyOf, ValueOf, Secret;
    var o, secret := Overlaid(auth, env), Secret(auth.value, env);
    PairParts(o.key, secret);
    TableExtends(Stripped(env), o.key + "=" + secret);
    SecretTrimmed(auth.value, env);
    forall k | k in AMBIENT ensures k !in Table(Stripped(env)) {
      StripDropsAmbient(env, k);
    }
  }

  // ----- Main results -----

  /** A profile that owns auth, in a known mode and with its secret at hand, decides alone:
      whatever the environment and the settings files carry, the mode is the profile's and
      the header is exactly its secret. */
  lemma {:induction false} OwnedAuthIsTheProfiles(auth: Profiles.Auth, env: seq<string>, docs: seq<Doc>)
    requires ProfileAuthEnvKey(auth.mode) != "" && Secret(auth, env) != "" && Readable(docs)
    ensures AuthOf(Some(auth), env, docs) ==
            Ok(Overridden(if ProfileAuthEnvKey(auth.mode) == API_KEY
                          then Override(XAPIKey, "X-API-Key", Secret(auth, env), false)
                          else Override(Bearer, "Authorization", "Bearer " + Secret(auth, env), false)))
  {
    hide TrimSpace, Table, Stripped, ToLower, Merged, Layers, Readable, Secret, Found;
    OverlayHoldsSecret(Some(auth), env);
    SecretTrimmed(auth, env);
    var o := Overlaid(Some(auth), env);
    var own := (Merged(Table(o.env), Layers(docs)) - CREDENTIALS)[o.key := Lookup(Table(o.env), o.key)];
    FoundIs(own);
  }

  /** Two launches that differ only in ambient auth entries and in what settings files say
      resolve to the same auth, if the profile finds the same secret in both. */
  lemma {:induction false} AmbientAuthDoesNotInterfere(
      auth: Profiles.Auth, env: seq<string>, env': seq<string>, docs: seq<Doc>, docs': seq<Doc>)
    requires ProfileAuthEnvKey(auth.mode) != "" && Secret(auth, env) != "" && Readable(docs) && Readable(docs')
    requires Stripped(env) == Stripped(env')
    requires TrimSpace(auth.key) == "" && TrimSpace(auth.keyEnv) in AMBIENT ==> Secret(auth, env) == Secret(auth, env')
    ensures AuthOf(Some(auth), env, docs) == AuthOf(Some(auth), env', docs')
  {
    hide TrimSpace, Table, Stripped, ToLower, Merged, Layers, Readable, Found, AuthOf;
    StripDropsAmbient(env, TrimSpace(auth.keyEnv));
    StripDropsAmbient(env', TrimSpace(auth.keyEnv));
    OwnedAuthIsTheProfiles(auth, env, docs);
    OwnedAuthIsTheProfiles(auth, env', docs');
  }

  /** With no secret to be found, the environment is shut out but the settings files are
      not: the launch has no credential exactly when no trusted file sets one. */
  lemma {:induction false} MissingSecretIff(auth: Profiles.Auth, env: seq<string>, docs: seq<Doc>)
    requires Secret(auth, env) == "" && Readable(docs)
    ensures AuthOf(Some(auth), env, docs) == Ok(Passthrough) <==>
            forall k | k in CREDENTIALS :: Last(Layers(docs), k) == ""
    ensures AuthOf(Some(auth), env, docs).Err? <==>
            exists k, k' :: k in CREDENTIALS && k' in CREDENTIALS && k != k'
                            && Last(Layers(docs), k) != "" && Last(Layers(docs), k') != ""
  {
    hide TrimSpace, Table, Stripped, ToLower, Merged, Layers, Readable, Secret, Found, Last;
    var stripped := Table(Stripped(env));
    forall k | k in AMBIENT ensures k !in stripped {
      StripDropsAmbient(env, k);
    }
    FoundIs(Merged(stripped, Layers(docs)));
    MergedLookup(stripped, Layers(docs), API_KEY);
    MergedLookup(stripped, Layers(docs), AUTH_TOKEN);
    MergedLookup(stripped, Layers(docs), OAUTH_TOKEN);
    CredentialsApart();
  }

  /** A bearer profile whose variable is unset, and a user settings file with an API key: the
      settings file's key goes upstream, in its own header. */
  lemma {:induction false} SettingsKeyTakesOver(env: seq<string>)
    requires "GW_KEY" !in Table(env)
    ensures AuthOf(Some(Profiles.Auth("ccwrap_bearer", "", "GW_KEY")), env,
                   [Doc(UserSettings, Ok(map["ANTHROPIC_API_KEY" := "sk"]))])
            == Ok(Overridden(Override(XAPIKey, "X-API-Key", "sk", false)))
  {
    hide TrimSpace, Table, Stripped, ToLower, Merged, Layers, Found, Last, ProfileAuthEnvKey, ToUpper;
    var docs := [Doc(UserSettings, Ok(map["ANTHROPIC_API_KEY" := "sk"]))];
    var stripped := Table(Stripped(env));
    Trimmed("");
    Trimmed("GW_KEY");
    forall k | k in AMBIENT ensures k !in stripped {
      StripDropsAmbient(env, k);
    }
    CredentialsApart();
    FoundIs(Merged(stripped, Layers(docs)));
    MergedLookup(stripped, Layers(docs), API_KEY);
    MergedLookup(stripped, Layers(docs), AUTH_TOKEN);
    MergedLookup(stripped, Layers(docs), OAUTH_TOKEN);
    OneSettingsKey(docs);
  }

  lemma {:induction false} OneSettingsKey(docs: seq<Doc>)
    requires docs == [Doc(UserSettings, Ok(map["ANTHROPIC_API_KEY" := "sk"]))]
    ensures Last(Layers(docs), API_KEY) == "sk"
    ensures Last(Layers(docs), AUTH_TOKEN) == "" && Last(Layers(docs), OAUTH_TOKEN) == ""
  {
    hide TrimSpace, IsRoutingKey;
    CredentialsApart();
    ApiKeyRoutes();
    Trimmed("sk");
    var layer := Filtered(map["ANTHROPIC_API_KEY" := "sk"]);
    OneDoc(docs[0], GlobalConfig);
    OneDoc(docs[0], UserSettings);
    OneDoc(docs[0], FlagSettings);
    OneDoc(docs[0], PolicySettings);
    assert Layers(docs) == [layer];
    assert [layer][..0] == [];
  }

  lemma {:induction false} OneDoc(d: Doc, source: Source)
    ensures OfSource([d], source) == if d.source == source && d.env.Ok? then [Filtered(d.env.value)] else []
  {
    assert OfSource([d][..0], source) == [];
  }

  lemma {:induction false} ApiKeyRoutes()
    ensures IsRoutingKey(API_KEY)
  {
    assert ToUpper(API_KEY) == API_KEY;
  }

  lemma {:induction false} CredentialsApart()
    ensures API_KEY != AUTH_TOKEN && API_KEY != OAUTH_TOKEN && AUTH_TOKEN != OAUTH_TOKEN
  {
    assert |API_KEY| == 17 && |AUTH_TOKEN| == 20 && |OAUTH_TOKEN| == 23;
  }

  // ----- The contract on the route -----

  datatype Policy = FirstPartyPassthrough | CcwrapOverride | UnsafePassthrough | OverrideFailClosed

  datatype Bootstrap = NotNeeded | MissingAuth | Placeholder

  function HiddenAuthContract(thirdParty: bool, allowPassthrough: bool, auth: Auth): (Policy, Bootstrap) {
    if !thirdParty then (if auth.Passthrough? then FirstPartyPassthrough else CcwrapOverride, NotNeeded)
    else if !auth.Passthrough? then (OverrideFailClosed, Placeholder)
    else if allowPassthrough then (UnsafePassthrough, NotNeeded)
    else (OverrideFailClosed, MissingAuth)
  }

  /** On a third-party route that does not allow passthrough, a profile whose key variable
      is unset fails closed exactly when no trusted settings file carries a credential. */
  lemma {:induction false} MissingSecretFailsClosedIff(auth: Profiles.Auth, env: seq<string>, docs: seq<Doc>)
    requires Secret(auth, env) == "" && Readable(docs) && AuthOf(Some(auth), env, docs).Ok?
    ensures HiddenAuthContract(true, false, AuthOf(Some(auth), env, docs).value) == (OverrideFailClosed, MissingAuth)
            <==> forall k | k in CREDENTIALS :: Last(Layers(docs), k) == ""
  {
    hide TrimSpace, AuthOf, Secret, Last, Layers, Readable;
    MissingSecretIff(auth, env, docs);
  }

  /** What each combination of route, permission and auth means for the launch. */
  lemma {:induction false} ContractIs(o: Override)
    ensures forall allow :: HiddenAuthContract(false, allow, Passthrough) == (FirstPartyPassthrough, NotNeeded)
    ensures forall allow :: HiddenAuthContract(false, allow, Overridden(o)) == (CcwrapOverride, NotNeeded)
    ensures forall allow :: HiddenAuthContract(true, allow, Overridden(o)) == (OverrideFailClosed, Placeholder)
    ensures HiddenAuthContract(true, true, Passthrough) == (UnsafePassthrough, NotNeeded)
    ensures HiddenAuthContract(true, false, Passthrough) == (OverrideFailClosed, MissingAuth)
  {
  }

  // ----- Whose value of a key counts -----

  predicate Sets(d: Doc, source: Source, k: string) {
    d.source == source && d.env.Ok? && k in d.env.value
  }

  predicate NoneSets(docs: seq<Doc>, source: Source, k: string) {
    forall i | 0 <= i < |docs| :: !Sets(docs[i], source, k)
  }

  /** The last document of a source to set the key. */
  predicate LastSetter(docs: seq<Doc>, i: nat, source: Source, k: string) {
    i < |docs| && Sets(docs[i], source, k) && forall j | i < j < |docs| :: !Sets(docs[j], source, k)
  }

  predicate Mentions(layers: seq<Env>, k: string) {
    exists l :: l in layers && k in l
  }

  lemma {:induction false} LastConcat(a: seq<Env>, b: seq<Env>, k: string)
    ensures Last(a + b, k) == if Mentions(b, k) then Last(b, k) else Last(a, k)
    ensures Mentions(a + b, k) <==> Mentions(a, k) || Mentions(b, k)
    decreases |b|
  {
    hide TrimSpace;
    if b == [] {
      assert a + b == a;
    } else {
      var n := |b| - 1;
      assert (a + b)[..|a + b| - 1] == a + b[..n] && (a + b)[|a + b| - 1] == b[n];
      LastConcat(a, b[..n], k);
      assert b == b[..n] + [b[n]];
      assert forall l :: l in a + b <==> l in a || l in b;
    }
  }

  lemma {:induction false} OfSourceSays(docs: seq<Doc>, source: Source, k: string)
    requires k in CREDENTIALS
    ensures Mentions(OfSource(docs, source), k) <==> !NoneSets(docs, source, k)
    ensures forall i: nat | LastSetter(docs, i, source, k) ::
              Last(OfSource(docs, source), k) == TrimSpace(docs[i].env.value[k])
    decreases |docs|
  {
    hide TrimSpace, OfSource, Mentions, Last, NoneSets;
    if docs == [] {
      NoDocsSay(source, k);
    } else {
      var n := |docs| - 1;
      var before := OfSource(docs[..n], source);
      OfSourceSays(docs[..n], source, k);
      var layer := LayerOf(docs, source, k);
      LastConcat(before, layer, k);
      SettersBefore(docs, source, k);
      forall i: nat | LastSetter(docs, i, source, k)
        ensures Last(OfSource(docs, source), k) == TrimSpace(docs[i].env.value[k])
      {
        SetterBefore(docs, i, source, k);
      }
    }
  }

  lemma {:induction false} NoDocsSay(source: Source, k: string)
    ensures !Mentions(OfSource([], source), k) && NoneSets([], source, k)
    ensures forall i: nat :: !LastSetter([], i, source, k)
  {
  }

  /** What the last document adds. */
  lemma {:induction false} LayerOf(docs: seq<Doc>, source: Source, k: string) returns (layer: seq<Env>)
    requires docs != [] && k in CREDENTIALS
    ensures var d := docs[|docs| - 1];
            && OfSource(docs, source) == OfSource(docs[..|docs| - 1], source) + layer
            && (Mentions(layer, k) <==> Sets(d, source, k))
            && (Sets(d, source, k) ==> Last(layer, k) == TrimSpace(d.env.value[k]))
  {
    hide TrimSpace, IsRoutingKey, Mentions, Last;
    CredentialsRoute();
    var d := docs[|docs| - 1];
    layer := if d.source == source && d.env.Ok? then [Filtered(d.env.value)] else [];
    OneLayerSays(layer, k);
  }

  lemma {:induction false} SettersBefore(docs: seq<Doc>, source: Source, k: string)
    requires docs != []
    ensures var n := |docs| - 1;
            NoneSets(docs, source, k) <==> NoneSets(docs[..n], source, k) && !Sets(docs[n], source, k)
  {
    hide Sets;
    var n := |docs| - 1;
    assert forall i | 0 <= i < n :: docs[..n][i] == docs[i];
  }

  lemma {:induction false} SetterBefore(docs: seq<Doc>, i: nat, source: Source, k: string)
    requires docs != [] && LastSetter(docs, i, source, k)
    ensures var n := |docs| - 1;
            && i <= n && Sets(docs[i], source, k) && (i < n ==> !Sets(docs[n], source, k))
            && (i < n ==> docs[..n][i] == docs[i] && LastSetter(docs[..n], i, source, k))
  {
    hide Sets;
    var n := |docs| - 1;
    assert forall j | 0 <= j < n :: docs[..n][j] == docs[j];
  }

  lemma {:induction false} OneLayerSays(layer: seq<Env>, k: string)
    requires |layer| <= 1
    ensures layer != [] ==> (Mentions(layer, k) <==> k in layer[0])
    ensures layer != [] && k in layer[0] ==> Last(layer, k) == TrimSpace(layer[0][k])
    ensures layer == [] ==> !Mentions(layer, k)
  {
    hide TrimSpace;
    if layer != [] {
      assert layer[0] in layer;
    }
  }

  lemma {:induction false} CredentialsRoute()
    ensures forall k | k in CREDENTIALS :: IsRoutingKey(k)
  {
    assert ToUpper(API_KEY) == API_KEY;
    assert ToUpper(AUTH_TOKEN) == AUTH_TOKEN;
    assert ToUpper(OAUTH_TOKEN) == OAUTH_TOKEN;
  }

  /** The settings that count, strongest first: the policy's, those given by flag, the user's,
      the global ones; of each source the last document to set the key. Project and local
      settings never do. */
  lemma {:induction false} StrongestSettingCounts(docs: seq<Doc>, k: string)
    requires k in CREDENTIALS
    ensures forall i: nat | LastSetter(docs, i, PolicySettings, k) ::
              Last(Layers(docs), k) == TrimSpace(docs[i].env.value[k])
    ensures NoneSets(docs, PolicySettings, k) ==>
              forall i: nat | LastSetter(docs, i, FlagSettings, k) ::
                Last(Layers(docs), k) == TrimSpace(docs[i].env.value[k])
    ensures NoneSets(docs, PolicySettings, k) && NoneSets(docs, FlagSettings, k) ==>
              forall i: nat | LastSetter(docs, i, UserSettings, k) ::
                Last(Layers(docs), k) == TrimSpace(docs[i].env.value[k])
    ensures NoneSets(docs, PolicySettings, k) && NoneSets(docs, FlagSettings, k) && NoneSets(docs, UserSettings, k) ==>
              forall i: nat | LastSetter(docs, i, GlobalConfig, k) ::
                Last(Layers(docs), k) == TrimSpace(docs[i].env.value[k])
    ensures (forall source | source in TRUSTED :: NoneSets(docs, source, k)) ==>
              Last(Layers(docs), k) == "" && !Mentions(Layers(docs), k)
  {
    hide TrimSpace, OfSource, Mentions, NoneSets, LastSetter;
    var g, u := OfSource(docs, GlobalConfig), OfSource(docs, UserSettings);
    var f, p := OfSource(docs, FlagSettings), OfSource(docs, PolicySettings);
    OfSourceSays(docs, GlobalConfig, k);
    OfSourceSays(docs, UserSettings, k);
    OfSourceSays(docs, FlagSettings, k);
    OfSourceSays(docs, PolicySettings, k);
    LastConcat(g, u, k);
    LastConcat(g + u, f, k);
    LastConcat(g + u + f, p, k);
    SilentLayers(g, k);
    assert PolicySettings in TRUSTED && FlagSettings in TRUSTED && UserSettings in TRUSTED && GlobalConfig in TRUSTED;
    forall i: nat, source | LastSetter(docs, i, source, k) ensures !NoneSets(docs, source, k) {
      SetterSets(docs, i, source, k);
    }
  }

  lemma {:induction false} SetterSets(docs: seq<Doc>, i: nat, source: Source, k: string)
    requires LastSetter(docs, i, source, k)
    ensures !NoneSets(docs, source, k)
  {
  }

  lemma {:induction false} SilentLayers(layers: seq<Env>, k: string)
    ensures !Mentions(layers, k) ==> Last(layers, k) == ""
  {
    hide TrimSpace;
    if layers != [] {
      var n := |layers| - 1;
      SilentLayers(layers[..n], k);
      assert layers[n] in layers;
      assert forall l | l in layers[..n] :: l in layers;
    }
  }

  // ----- Launches without and with a credential of their own -----

  /** Without a profile that owns auth, and with no settings file that has a say, the launch
      environment decides, untouched. */
  lemma {:induction false} EnvironmentDecides(env: seq<string>, docs: seq<Doc>)
    requires Readable(docs)
    requires forall k | k in CREDENTIALS :: !Mentions(Layers(docs), k)
    ensures ResolvesTo(Table(env), Table(env), AuthOf(None, env, docs))
  {
    hide TrimSpace, Table, Layers, Readable, Resolved, Mentions, Merged;
    var t := Table(env);
    var merged := Merged(t, Layers(docs));
    ResolvedIs(t, merged);
    forall k | k in CREDENTIALS ensures Lookup(merged, k) == Lookup(t, k) {
      UnmentionedStays(t, Layers(docs), k);
    }
    assert API_KEY in CREDENTIALS && AUTH_TOKEN in CREDENTIALS && OAUTH_TOKEN in CREDENTIALS;
  }

  lemma {:induction false} UnmentionedStays(env: Env, layers: seq<Env>, k: string)
    requires !Mentions(layers, k)
    ensures Lookup(Merged(env, layers), k) == Lookup(env, k)
  {
    hide TrimSpace;
    if layers != [] {
      var n := |layers| - 1;
      assert layers[n] in layers;
      assert forall l | l in layers[..n] :: l in layers;
      UnmentionedStays(env, layers[..n], k);
    }
  }

  /** A profile with a key of its own sends that key, in the header its mode stands for. */
  lemma {:induction false} ProfileKeySent(auth: Profiles.Auth, env: seq<string>, docs: seq<Doc>)
    requires Readable(docs) && TrimSpace(auth.key) != ""
    ensures TrimSpace(ToLower(auth.mode)) == "ccwrap_bearer" ==>
              AuthOf(Some(auth), env, docs)
              == Ok(Overridden(Override(Bearer, "Authorization", "Bearer " + TrimSpace(auth.key), false)))
    ensures TrimSpace(ToLower(auth.mode)) == "ccwrap_x_api_key" ==>
              AuthOf(Some(auth), env, docs)
              == Ok(Overridden(Override(XAPIKey, "X-API-Key", TrimSpace(auth.key), false)))
  {
    hide TrimSpace, ToLower, AuthOf, Readable, Table;
    CredentialsApart();
    if ProfileAuthEnvKey(auth.mode) != "" {
      OwnedAuthIsTheProfiles(auth, env, docs);
    }
  }

  /** A profile that names a variable sends what the launch environment has under it. */
  lemma {:induction false} ProfileVariableSent(auth: Profiles.Auth, env: seq<string>, docs: seq<Doc>)
    requires Readable(docs) && TrimSpace(auth.key) == "" && TrimSpace(auth.keyEnv) != ""
    requires TrimSpace(auth.keyEnv) in Table(env) && TrimSpace(Table(env)[TrimSpace(auth.keyEnv)]) != ""
    ensures var v := TrimSpace(Table(env)[TrimSpace(auth.keyEnv)]);
            && (TrimSpace(ToLower(auth.mode)) == "ccwrap_bearer" ==>
                  AuthOf(Some(auth), env, docs)
                  == Ok(Overridden(Override(Bearer, "Authorization", "Bearer " + v, false))))
            && (TrimSpace(ToLower(auth.mode)) == "ccwrap_x_api_key" ==>
                  AuthOf(Some(auth), env, docs) == Ok(Overridden(Override(XAPIKey, "X-API-Key", v, false))))
  {
    hide TrimSpace, ToLower, AuthOf, Readable, Table;
    CredentialsApart();
    if ProfileAuthEnvKey(auth.mode) != "" {
      OwnedAuthIsTheProfiles(auth, env, docs);
    }
  }

  /** One settings file whose env block cannot be read refuses the launch, project and local
      ones included, whoever owns auth. */
  lemma {:induction false} UnreadableRefuses(auth: Option<Profiles.Auth>, env: seq<string>, docs: seq<Doc>, d: Doc)
    requires d in docs && d.env.Err?
    requires d.source in {GlobalConfig, UserSettings, FlagSettings, PolicySettings, ProjectSettings, LocalSettings}
    ensures AuthOf(auth, env, docs).Err?
  {
    hide Overlaid, Table, Merged, Layers, Resolved;
    assert !d.source.OtherSettings?;
  }
}

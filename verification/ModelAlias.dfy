/** The alias table: which tables are accepted, what model a request is sent with, and
    the table that undoes it. */
module ModelAlias {
  import opened Prelude
  import opened Text

  const DEFAULT_KEY := "*"
  const KEEP_NAME := "*"

  type Table = map<string, string>

  datatype Config = Config(forward: Table, strict: bool, passthrough: bool)

  /** A routed id of some provider, rather than a Claude name. */
  predicate LooksProviderSpecific(id: string) {
    var s := TrimSpace(id);
    var lower := ToLower(s);
    s != "" &&
    (Contains(lower, "arn:") || Contains(lower, "/") || Contains(lower, "projects/") || Contains(lower, "deployments/")
     || Contains(lower, "publishers/") || Contains(lower, "@") || Contains(lower, "anthropic.") || Contains(s, ":"))
  }

  predicate IsClaudeModel(model: string) {
    "claude-" <= ToLower(model)
  }

  // ----- Accepting a table -----

  predicate BadEntry(logical: string, provider: string) {
    var l, p := TrimSpace(logical), TrimSpace(provider);
    l == "" || p == "" || LooksProviderSpecific(l) || (p == KEEP_NAME && l != DEFAULT_KEY)
  }

  /** Two explicit aliases for one provider model. */
  predicate Clash(l: string, p: string, l': string, p': string) {
    && TrimSpace(l) != DEFAULT_KEY && TrimSpace(l') != DEFAULT_KEY
    && TrimSpace(p) == TrimSpace(p') && TrimSpace(l) != TrimSpace(l')
  }

  /** The entries under `keys` are fine one by one and pairwise. */
  predicate AcceptableOn(raw: Table, keys: set<string>)
    requires keys <= raw.Keys
  {
    && (forall l | l in keys :: !BadEntry(l, raw[l]))
    && (forall l, l' | l in keys && l' in keys :: !Clash(l, raw[l], l', raw[l']))
  }

  predicate Acceptable(raw: Table) {
    AcceptableOn(raw, raw.Keys)
  }

  /** What holds of every table `New` returns. */
  predicate WellFormed(forward: Table) {
    && (forall l | l in forward :: EntryOk(l, forward[l]))
    && Injective(forward)
  }

  predicate EntryOk(l: string, p: string) {
    && l != "" && p != "" && TrimSpace(l) == l && TrimSpace(p) == p
    && !LooksProviderSpecific(l) && (p == KEEP_NAME ==> l == DEFAULT_KEY)
  }

  /** Apart from the default, no two aliases share a target. */
  predicate Injective(forward: Table) {
    forall l, l' | l in forward && l' in forward && l != DEFAULT_KEY && l' != DEFAULT_KEY
      && forward[l] == forward[l'] :: l == l'
  }

  /** All that mapping back relies on. */
  predicate Unambiguous(forward: Table) {
    Injective(forward) && forall l | l in forward :: forward[l] != ""
  }

  lemma {:induction false} WellFormedIsUnambiguous(forward: Table)
    requires WellFormed(forward)
    ensures Unambiguous(forward)
  {
    hide TrimSpace, LooksProviderSpecific;
    assert forall l | l in forward :: EntryOk(l, forward[l]);
  }

  /** `forward` holds what `raw` says under `keys`, trimmed; of names equal once trimmed, one wins. */
  ghost predicate CleansOn(forward: Table, raw: Table, keys: set<string>)
    requires keys <= raw.Keys
  {
    && (forall l | l in forward :: exists k :: k in keys && TrimSpace(k) == l && TrimSpace(raw[k]) == forward[l])
    && (forall k | k in keys :: TrimSpace(k) in forward)
  }

  ghost predicate Cleans(forward: Table, raw: Table) {
    CleansOn(forward, raw, raw.Keys)
  }

  /** `seen` knows which explicit alias took each provider model. */
  ghost predicate SeenOn(seen: Table, raw: Table, keys: set<string>)
    requires keys <= raw.Keys
  {
    && (forall k | k in keys && TrimSpace(k) != DEFAULT_KEY ::
          TrimSpace(raw[k]) in seen && seen[TrimSpace(raw[k])] == TrimSpace(k))
    && (forall p | p in seen ::
          exists k :: k in keys && TrimSpace(k) == seen[p] && seen[p] != DEFAULT_KEY && TrimSpace(raw[k]) == p)
  }

  lemma {:induction false} CleansMore(clean: Table, raw: Table, keys: set<string>, key: string)
    requires keys <= raw.Keys && key in raw && CleansOn(clean, raw, keys)
    ensures CleansOn(clean[TrimSpace(key) := TrimSpace(raw[key])], raw, keys + {key})
  {
    hide TrimSpace;
    var clean' := clean[TrimSpace(key) := TrimSpace(raw[key])];
    forall l | l in clean'
      ensures exists k :: k in keys + {key} && TrimSpace(k) == l && TrimSpace(raw[k]) == clean'[l]
    {
      if l != TrimSpace(key) {
        var k :| k in keys && TrimSpace(k) == l && TrimSpace(raw[k]) == clean[l];
        assert k in keys + {key};
      } else {
        assert key in keys + {key};
      }
    }
  }

  lemma {:induction false} SeenMore(seen: Table, raw: Table, keys: set<string>, key: string)
    requires keys <= raw.Keys && key in raw && SeenOn(seen, raw, keys)
    requires TrimSpace(raw[key]) in seen ==> seen[TrimSpace(raw[key])] == TrimSpace(key)
    ensures TrimSpace(key) != DEFAULT_KEY ==> SeenOn(seen[TrimSpace(raw[key]) := TrimSpace(key)], raw, keys + {key})
  {
    hide TrimSpace;
    var seen' := seen[TrimSpace(raw[key]) := TrimSpace(key)];
    if TrimSpace(key) != DEFAULT_KEY {
      forall p | p in seen'
        ensures exists k ::
                  k in keys + {key} && TrimSpace(k) == seen'[p] && seen'[p] != DEFAULT_KEY && TrimSpace(raw[k]) == p
      {
        if p in seen {
          var k :| k in keys && TrimSpace(k) == seen[p] && seen[p] != DEFAULT_KEY && TrimSpace(raw[k]) == p;
          assert k in keys + {key};
        } else {
          assert key in keys + {key};
        }
      }
    }
  }

  lemma {:induction false} SeenDefault(seen: Table, raw: Table, keys: set<string>, key: string)
    requires keys <= raw.Keys && key in raw && SeenOn(seen, raw, keys) && TrimSpace(key) == DEFAULT_KEY
    ensures SeenOn(seen, raw, keys + {key})
  {
    hide TrimSpace;
  }

  lemma {:induction false} AcceptsMore(seen: Table, raw: Table, keys: set<string>, key: string)
    requires keys <= raw.Keys && key in raw && SeenOn(seen, raw, keys) && AcceptableOn(raw, keys)
    ensures AcceptableOn(raw, keys + {key}) <==>
            && !BadEntry(key, raw[key])
            && (TrimSpace(key) != DEFAULT_KEY && TrimSpace(raw[key]) in seen ==>
                  seen[TrimSpace(raw[key])] == TrimSpace(key))
  {
    hide TrimSpace, BadEntry, LooksProviderSpecific;
    var p := TrimSpace(raw[key]);
    if TrimSpace(key) != DEFAULT_KEY && p in seen && seen[p] != TrimSpace(key) {
      var k :| k in keys && TrimSpace(k) == seen[p] && seen[p] != DEFAULT_KEY && TrimSpace(raw[k]) == p;
      assert Clash(k, raw[k], key, raw[key]);
    } else {
      assert forall k | k in keys + {key} :: !Clash(k, raw[k], key, raw[key]) && !Clash(key, raw[key], k, raw[k]);
    }
  }

  /** Accepting fewer entries is no harder. */
  lemma {:induction false} AcceptsFewer(raw: Table, keys: set<string>)
    requires keys <= raw.Keys && Acceptable(raw)
    ensures AcceptableOn(raw, keys)
  {
    hide BadEntry, Clash;
  }

  /** The map is ranged over in an order Go does not fix, so neither does the loop:
      whether a table is accepted does not depend on that order. */
  method New(raw: Table, strict: bool) returns (r: Result<Config, ()>)
    ensures r.Ok? <==> Acceptable(raw)
    ensures r.Ok? <==>
            && (forall k | k in raw ::
                  && TrimSpace(k) != "" && TrimSpace(raw[k]) != "" && !LooksProviderSpecific(TrimSpace(k))
                  && (TrimSpace(raw[k]) == "*" ==> TrimSpace(k) == "*"))
            && (forall k, k' | k in raw && k' in raw && TrimSpace(k) != "*" && TrimSpace(k') != "*" ::
                  TrimSpace(raw[k]) == TrimSpace(raw[k']) ==> TrimSpace(k) == TrimSpace(k'))
    ensures r.Ok? ==> WellFormed(r.value.forward) && Unambiguous(r.value.forward) && Cleans(r.value.forward, raw)
                      && r.value.strict == strict && !r.value.passthrough
  {
    hide BadEntry, AcceptableOn, CleansOn, SeenOn, TrimSpace, LooksProviderSpecific, WellFormed, Unambiguous;
    var clean: Table := map[];
    var seen: Table := map[];
    var rest := raw.Keys;
    NothingYet(raw);
    AcceptableIff(raw);
    assert raw.Keys - rest == {};
    while rest != {}
      invariant rest <= raw.Keys
      invariant AcceptableOn(raw, raw.Keys - rest)
      invariant CleansOn(clean, raw, raw.Keys - rest) && SeenOn(seen, raw, raw.Keys - rest)
      decreases |rest|
    {
      var key :| key in rest;
      var logical, provider := TrimSpace(key), TrimSpace(raw[key]);
      ghost var done := raw.Keys - rest;
      assert raw.Keys - (rest - {key}) == done + {key};
      EntryChecks(key, raw[key]);
      AcceptsMore(seen, raw, done, key);
      if logical == "" || provider == "" || LooksProviderSpecific(logical)
         || (provider == KEEP_NAME && logical != DEFAULT_KEY) {
        RefusedForGood(raw, done + {key});
        return Err(());
      }
      if logical != DEFAULT_KEY {
        if provider in seen && seen[provider] != logical {
          RefusedForGood(raw, done + {key});
          return Err(());
        }
        SeenMore(seen, raw, done, key);
        seen := seen[provider := logical];
      } else {
        SeenDefault(seen, raw, done, key);
      }
      CleansMore(clean, raw, done, key);
      clean := clean[logical := provider];
      rest := rest - {key};
    }
    assert raw.Keys - rest == raw.Keys;
    CleanIsWellFormed(clean, raw);
    WellFormedIsUnambiguous(clean);
    return Ok(Config(clean, strict, false));
  }

  lemma {:induction false} AcceptableIff(raw: Table)
    ensures Acceptable(raw) <==>
            && (forall k | k in raw ::
                  && TrimSpace(k) != "" && TrimSpace(raw[k]) != "" && !LooksProviderSpecific(TrimSpace(k))
                  && (TrimSpace(raw[k]) == "*" ==> TrimSpace(k) == "*"))
            && (forall k, k' | k in raw && k' in raw && TrimSpace(k) != "*" && TrimSpace(k') != "*" ::
                  TrimSpace(raw[k]) == TrimSpace(raw[k']) ==> TrimSpace(k) == TrimSpace(k'))
  {
    hide TrimSpace, LooksProviderSpecific;
    forall k, k' | k in raw && k' in raw
      ensures Clash(k, raw[k], k', raw[k']) <==>
              TrimSpace(k) != "*" && TrimSpace(k') != "*" && TrimSpace(raw[k]) == TrimSpace(raw[k'])
              && TrimSpace(k) != TrimSpace(k')
    {
    }
    forall k | k in raw
      ensures !BadEntry(k, raw[k]) <==>
              && TrimSpace(k) != "" && TrimSpace(raw[k]) != "" && !LooksProviderSpecific(TrimSpace(k))
              && (TrimSpace(raw[k]) == "*" ==> TrimSpace(k) == "*")
    {
    }
  }

  lemma {:induction false} NothingYet(raw: Table)
    ensures AcceptableOn(raw, {}) && CleansOn(map[], raw, {}) && SeenOn(map[], raw, {})
  {
    hide BadEntry, Clash, TrimSpace;
  }

  lemma {:induction false} RefusedForGood(raw: Table, keys: set<string>)
    requires keys <= raw.Keys && !AcceptableOn(raw, keys)
    ensures !Acceptable(raw)
  {
    hide BadEntry, Clash;
    if Acceptable(raw) {
      AcceptsFewer(raw, keys);
    }
  }

  lemma {:induction false} EntryChecks(l: string, p: string)
    ensures BadEntry(l, p) <==>
            TrimSpace(l) == "" || TrimSpace(p) == "" || LooksProviderSpecific(TrimSpace(l))
            || (TrimSpace(p) == KEEP_NAME && TrimSpace(l) != DEFAULT_KEY)
  {
    hide TrimSpace, LooksProviderSpecific;
  }

  lemma {:induction false} CleanIsWellFormed(forward: Table, raw: Table)
    requires Cleans(forward, raw) && Acceptable(raw)
    ensures WellFormed(forward)
  {
    hide TrimSpace, LooksProviderSpecific;
    forall l | l in forward ensures EntryOk(l, forward[l]) {
      var k :| k in raw && TrimSpace(k) == l && TrimSpace(raw[k]) == forward[l];
      assert !BadEntry(k, raw[k]);
      TrimIdempotent(k);
      TrimIdempotent(raw[k]);
    }
    forall l, l' | l in forward && l' in forward && l != DEFAULT_KEY && l' != DEFAULT_KEY && forward[l] == forward[l']
      ensures l == l'
    {
      var k :| k in raw && TrimSpace(k) == l && TrimSpace(raw[k]) == forward[l];
      var k' :| k' in raw && TrimSpace(k') == l' && TrimSpace(raw[k']) == forward[l'];
      assert !Clash(k, raw[k], k', raw[k']);
    }
  }

  // ----- Forward and back -----

  function Default(forward: Table): string {
    if DEFAULT_KEY in forward && forward[DEFAULT_KEY] != KEEP_NAME then forward[DEFAULT_KEY] else ""
  }

  predicate KeepsNames(forward: Table) {
    DEFAULT_KEY in forward && forward[DEFAULT_KEY] == KEEP_NAME
  }

  /** The model a request for `model` is sent with, when that is a rewrite. */
  function Target(forward: Table, model: string): Option<string> {
    if model == DEFAULT_KEY then None
    else if model in forward then Some(forward[model])
    else if IsClaudeModel(model) && Default(forward) != "" then Some(Default(forward))
    else None
  }

  predicate Unmaps(forward: Table, model: string) {
    forward != map[] && Default(forward) == "" && !KeepsNames(forward) && IsClaudeModel(model) && model !in forward
  }

  /** A Claude model that is not rewritten on a route with aliases is either kept on
      purpose or flagged as unmapped, never both and never neither. */
  lemma {:induction false} NotRewrittenIsKeptOrUnmapped(forward: Table, model: string)
    requires WellFormed(forward) && forward != map[] && IsClaudeModel(model) && Target(forward, model) == None
    ensures Unmaps(forward, model) <==> !KeepsNames(forward)
  {
    hide EntryOk, ToLower;
    assert DEFAULT_KEY in forward ==> EntryOk(DEFAULT_KEY, forward[DEFAULT_KEY]);
    StarIsNotClaude(model);
    if DEFAULT_KEY in forward {
      TargetsNotBlank(DEFAULT_KEY, forward[DEFAULT_KEY]);
    }
  }

  lemma {:induction false} StarIsNotClaude(model: string)
    requires IsClaudeModel(model)
    ensures model != DEFAULT_KEY
  {
  }

  lemma {:induction false} TargetsNotBlank(l: string, p: string)
    requires EntryOk(l, p)
    ensures p != ""
  {
  }

  /** The explicit aliases, turned around. */
  function ReverseOf(forward: Table): Table
    requires Injective(forward)
  {
    map l | l in forward && l != DEFAULT_KEY :: forward[l] := l
  }

  /** The part of the reverse table that the aliases in `keys` make up. */
  ghost predicate ReversedOn(out: Table, forward: Table, keys: set<string>)
    requires keys <= forward.Keys
  {
    && (forall l | l in keys && l != DEFAULT_KEY :: forward[l] in out && out[forward[l]] == l)
    && (forall p | p in out :: out[p] in keys && out[p] != DEFAULT_KEY && forward[out[p]] == p)
  }

  lemma {:induction false} ReversedMore(out: Table, forward: Table, keys: set<string>, key: string)
    requires Injective(forward) && keys <= forward.Keys && key in forward && ReversedOn(out, forward, keys)
    ensures ReversedOn(if key != DEFAULT_KEY then out[forward[key] := key] else out, forward, keys + {key})
  {
    var out' := if key != DEFAULT_KEY then out[forward[key] := key] else out;
    forall l | l in keys + {key} && l != DEFAULT_KEY ensures forward[l] in out' && out'[forward[l]] == l {
      if l != key {
        assert key != DEFAULT_KEY ==> forward[l] != forward[key];
      }
    }
  }

  lemma {:induction false} ReversedAll(out: Table, forward: Table)
    requires Injective(forward) && ReversedOn(out, forward, forward.Keys)
    ensures out == ReverseOf(forward)
  {
    var rev := ReverseOf(forward);
    assert forall p | p in out :: forward[out[p]] in rev;
    assert forall p | p in rev :: exists l :: l in forward && l != DEFAULT_KEY && forward[l] == p && rev[p] == l;
  }

  method ReverseMap(forward: Table) returns (out: Table)
    requires Injective(forward)
    ensures out == ReverseOf(forward)
  {
    hide Injective, ReversedOn, ReverseOf;
    out := map[];
    var rest := forward.Keys;
    assert forward.Keys - rest == {};
    ReversedNone(forward);
    while rest != {}
      invariant rest <= forward.Keys && ReversedOn(out, forward, forward.Keys - rest)
      decreases |rest|
    {
      var logical :| logical in rest;
      assert forward.Keys - (rest - {logical}) == (forward.Keys - rest) + {logical};
      ReversedMore(out, forward, forward.Keys - rest, logical);
      if logical != DEFAULT_KEY {
        out := out[forward[logical] := logical];
      }
      rest := rest - {logical};
    }
    assert forward.Keys - rest == forward.Keys;
    ReversedAll(out, forward);
  }

  lemma {:induction false} ReversedNone(forward: Table)
    ensures ReversedOn(map[], forward, {})
  {
  }

  /** The scan over the table finds what the reverse table holds, whatever its order. */
  method LogicalForProvider(forward: Table, provider: string) returns (logical: Option<string>)
    requires WellFormed(forward)
    ensures var p := TrimSpace(provider); var rev := ReverseOf(forward);
            logical == if p in rev then Some(rev[p]) else None
  {
    hide EntryOk, TrimSpace;
    var p := TrimSpace(provider);
    ghost var rev := ReverseOf(forward);
    WellFormedIsUnambiguous(forward);
    NoBlankTarget(forward);
    if p == "" {
      return None;
    }
    var rest := forward.Keys;
    while rest != {}
      invariant rest <= forward.Keys
      invariant forall l | l in forward.Keys - rest && l != DEFAULT_KEY :: forward[l] != p
      decreases |rest|
    {
      var l :| l in rest;
      if forward[l] == p && l != DEFAULT_KEY {
        assert forward[l] in rev;
        return Some(l);
      }
      rest := rest - {l};
    }
    assert p !in rev;
    return None;
  }

  lemma {:induction false} ReverseIs(forward: Table)
    requires Injective(forward)
    ensures var rev := ReverseOf(forward);
            && (forall l | l in forward && l != DEFAULT_KEY :: forward[l] in rev && rev[forward[l]] == l)
            && (forall q | q in rev :: rev[q] in forward && rev[q] != DEFAULT_KEY && forward[rev[q]] == q)
  {
    var rev := ReverseOf(forward);
    assert forall q | q in rev :: exists l :: l in forward && l != DEFAULT_KEY && forward[l] == q && rev[q] == l;
  }

  lemma {:induction false} NoBlankTarget(forward: Table)
    requires Unambiguous(forward)
    ensures "" !in ReverseOf(forward)
  {
  }

  /** A rewritten request carries its own way back, on top of the explicit aliases. */
  function WithReverse(reverse: Table, provider: string, logical: string): Table {
    reverse[provider := logical]
  }

  /** An explicit alias is its own way back; the default's is not in the table, so a batch
      item, whose answer is read with the table alone, comes back under its own name
      exactly when it had an alias of its own or was sent under its own name. */
  lemma {:induction false} TableRestoresExplicitOnly(forward: Table, model: string)
    requires Unambiguous(forward) && Target(forward, model).Some?
    ensures var p := Target(forward, model).value; var rev := ReverseOf(forward);
            (if p in rev then rev[p] else p) == model <==> (model in forward || (p == model && p !in rev))
  {
    hide IsClaudeModel;
    var p := Target(forward, model).value;
    var rev := ReverseOf(forward);
    assert p in rev ==> exists l :: l in forward && l != DEFAULT_KEY && forward[l] == p && rev[p] == l;
  }

  lemma {:induction false} Lacks(s: string, sub: string, ch: char)
    requires ch in sub && ch !in s
    ensures !Contains(s, sub)
    decreases |s|
  {
    if s != "" {
      Lacks(s[1..], sub, ch);
    }
  }

  /** A name without colon, slash, dot or at sign is no provider's. */
  lemma {:induction false} PlainNameFits(id: string)
    requires id != "" && !IsSpace(id[0]) && !IsSpace(id[|id| - 1])
    requires forall c | c in id :: c !in {':', '/', '.', '@'}
    ensures TrimSpace(id) == id && !LooksProviderSpecific(id)
  {
    hide TrimSpace, Contains, IsSpace;
    Trimmed(id);
    var lower := ToLower(id);
    forall c | c in lower ensures c !in {':', '/', '.', '@'} {
      var i :| 0 <= i < |lower| && lower[i] == c;
      assert id[i] in id;
    }
    Lacks(lower, "arn:", "arn:"[3]);
    Lacks(lower, "/", "/"[0]);
    Lacks(lower, "projects/", "projects/"[8]);
    Lacks(lower, "deployments/", "deployments/"[11]);
    Lacks(lower, "publishers/", "publishers/"[10]);
    Lacks(lower, "@", "@"[0]);
    Lacks(lower, "anthropic.", "anthropic."[9]);
    Lacks(id, ":", ":"[0]);
  }

  /** A table with nothing but a default: what is sent through it does not come back. */
  lemma {:induction false} DefaultNotRestored()
    ensures var forward := map["*" := "m"];
            && Acceptable(forward) && WellFormed(forward)
            && Target(forward, "claude-x") == Some("m") && ReverseOf(forward) == map[]
  {
    hide TrimSpace, LooksProviderSpecific;
    PlainNameFits("*");
    PlainNameFits("m");
    assert ToLower("claude-x")[..7] == "claude-";
  }

  lemma {:induction false} ContainsIff(s: string, sub: string)
    ensures Contains(s, sub) <==> exists i :: 0 <= i <= |s| && sub <= s[i..]
    decreases |s|
  {
    assert s[0..] == s;
    if s != "" {
      ContainsIff(s[1..], sub);
      if i :| 0 <= i <= |s[1..]| && sub <= s[1..][i..] {
        assert s[i + 1..] == s[1..][i..];
      }
      if i :| 1 <= i <= |s| && sub <= s[i..] {
        assert s[i..] == s[1..][i - 1..];
      }
    }
  }

  lemma {:induction false} HasChar(s: string, ch: char)
    ensures Contains(s, [ch]) <==> ch in s
  {
    ContainsIff(s, [ch]);
    if ch in s {
      var i :| 0 <= i < |s| && s[i] == ch;
      assert [ch] <= s[i..];
    }
    if i :| 0 <= i <= |s| && [ch] <= s[i..] {
      assert s[i] == s[i..][0];
    }
  }

  lemma {:induction false} LowerKeeps(s: string, ch: char)
    requires ch in {'/', '@', ':'}
    ensures ch in ToLower(s) <==> ch in s
  {
    var l := ToLower(s);
    if ch in s {
      var i :| 0 <= i < |s| && s[i] == ch;
      assert l[i] == ch;
    }
    if ch in l {
      var i :| 0 <= i < |l| && l[i] == ch;
      assert s[i] == ch;
    }
  }

  /** An id is some provider's exactly if, trimmed, it has a slash, an at sign or a colon in
      it, or the word "anthropic." in whatever case: all the other shapes have one of those. */
  lemma {:induction false} ProviderSpecificIff(id: string)
    ensures var t := TrimSpace(id);
            LooksProviderSpecific(id) <==>
              '/' in t || '@' in t || ':' in t || exists i :: 0 <= i <= |t| && "anthropic." <= ToLower(t)[i..]
  {
    hide TrimSpace, Contains;
    var t := TrimSpace(id);
    var lower := ToLower(t);
    HasChar(lower, '/');
    HasChar(lower, '@');
    HasChar(t, ':');
    LowerKeeps(t, '/');
    LowerKeeps(t, '@');
    LowerKeeps(t, ':');
    ContainsIff(lower, "anthropic.");
    if ':' !in t {
      Lacks(lower, "arn:", "arn:"[3]);
    }
    if '/' !in t {
      Lacks(lower, "projects/", "projects/"[8]);
      Lacks(lower, "deployments/", "deployments/"[11]);
      Lacks(lower, "publishers/", "publishers/"[10]);
    }
  }

  /** Which model a request goes out with: an alias's target; for a Claude name without an
      alias the target of `*`, unless that says to keep names; and else the one it named. */
  lemma {:induction false} TargetIs(forward: Table, model: string)
    requires WellFormed(forward)
    ensures model != "*" && model in forward ==> Target(forward, model) == Some(forward[model])
    ensures model !in forward && "claude-" <= ToLower(model) && "*" in forward && forward["*"] != "*" ==>
              Target(forward, model) == Some(forward["*"])
    ensures model == "*" || (model !in forward
                             && !("claude-" <= ToLower(model) && "*" in forward && forward["*"] != "*")) ==>
              Target(forward, model) == None
    ensures Unmaps(forward, model) <==>
            forward != map[] && "claude-" <= ToLower(model) && model !in forward && "*" !in forward
  {
    hide TrimSpace, LooksProviderSpecific, ToLower;
    assert forall l | l in forward :: EntryOk(l, forward[l]);
    if "claude-" <= ToLower(model) {
      StarIsNotClaude(model);
    }
  }
}

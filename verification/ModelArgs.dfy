/** Normalizing `--model` in Claude Code's arguments back to logical names, and the gate
    that looks for provider-shaped names left in them. */
module ModelArgs {
  import opened Prelude
  import opened Text
  import opened ModelAlias

  const FLAG := "--model"
  const FLAG_EQ := "--model="

  datatype Name = Kept(value: string) | Logical(value: string) | Unresolved(value: string)

  method NormalizeModelID(value: string, cfg: Config) returns (n: Name)
    requires WellFormed(cfg.forward)
    ensures n == NameFor(value, cfg)
    ensures NameIs(value, cfg, n)
  {
    hide TrimSpace, LooksProviderSpecific, WellFormed, NameIs;
    var v := TrimSpace(value);
    NameForIs(value, cfg);
    TrimIdempotent(value);
    InjectiveForward(cfg.forward);
    if v == "" {
      BlankHasNoName(cfg.forward);
      return Kept(v);
    }
    var logical := LogicalForProvider(cfg.forward, v);
    if logical.Some? {
      return Logical(logical.value);
    }
    if LooksProviderSpecific(v) && !cfg.passthrough {
      return Unresolved(v);
    }
    return Kept(v);
  }

  lemma {:induction false} InjectiveForward(forward: Table)
    requires WellFormed(forward)
    ensures Injective(forward)
  {
  }

  lemma {:induction false} BlankHasNoName(forward: Table)
    requires WellFormed(forward)
    ensures "" !in ReverseOf(forward) && !LooksProviderSpecific("")
  {
    WellFormedIsUnambiguous(forward);
    NoBlankTarget(forward);
  }

  /** What a model value means: the logical name of its alias, a provider name no alias
      explains, or itself. */
  function NameFor(value: string, cfg: Config): Name
    requires Injective(cfg.forward)
  {
    var v := TrimSpace(value);
    var rev := ReverseOf(cfg.forward);
    if v in rev then Logical(rev[v])
    else if LooksProviderSpecific(v) && !cfg.passthrough then Unresolved(v)
    else Kept(v)
  }

  /** The name of the explicit alias whose target the value is; else, for a provider's id that
      may not pass as it is, no name; else the value itself. */
  predicate NameIs(value: string, cfg: Config, n: Name) {
    var v := TrimSpace(value);
    && (forall l | l in cfg.forward && l != "*" && cfg.forward[l] == v :: n == Logical(l))
    && ((forall l | l in cfg.forward && l != "*" :: cfg.forward[l] != v) ==>
          n == if LooksProviderSpecific(v) && !cfg.passthrough then Unresolved(v) else Kept(v))
  }

  lemma {:induction false} NameForIs(value: string, cfg: Config)
    requires WellFormed(cfg.forward)
    ensures Injective(cfg.forward) && NameIs(value, cfg, NameFor(value, cfg))
  {
    hide TrimSpace, LooksProviderSpecific, WellFormed, ReverseOf;
    InjectiveForward(cfg.forward);
    ReverseIs(cfg.forward);
  }

  /** Where a scan of the arguments stands: past the end, at a value, or elsewhere. */
  datatype Scan = Done | Inline(value: string) | Separate(value: string) | Other

  function At(args: seq<string>): Scan {
    if args == [] || args[0] == "--" then Done
    else if FLAG_EQ <= args[0] then Inline(args[0][|FLAG_EQ|..])
    else if args[0] == FLAG && |args| > 1 then Separate(args[1])
    else Other
  }

  function Renormalized(arg: string, prefix: string, n: Name): string {
    if n.Logical? then prefix + n.value else arg
  }

  /** The arguments with every `--model` value that an alias explains replaced. */
  function Normalized(args: seq<string>, cfg: Config): (out: seq<string>)
    requires Injective(cfg.forward)
    ensures |out| == |args|
    decreases |args|
  {
    match At(args)
    case Done => args
    case Inline(v) => [Renormalized(args[0], FLAG_EQ, NameFor(v, cfg))] + Normalized(args[1..], cfg)
    case Separate(v) => [args[0], Renormalized(v, "", NameFor(v, cfg))] + Normalized(args[2..], cfg)
    case Other => [args[0]] + Normalized(args[1..], cfg)
  }

  function Missing(n: Name): seq<string> {
    if n.Unresolved? then [n.value] else []
  }

  /** The values no alias explains, in order. */
  function Leftover(args: seq<string>, cfg: Config): seq<string>
    requires Injective(cfg.forward)
    decreases |args|
  {
    match At(args)
    case Done => []
    case Inline(v) => Missing(NameFor(v, cfg)) + Leftover(args[1..], cfg)
    case Separate(v) => Missing(NameFor(v, cfg)) + Leftover(args[2..], cfg)
    case Other => Leftover(args[1..], cfg)
  }

  /** A value replaced: where it stood, what it became and what it was. */
  datatype Change = Change(source: string, logical: string, provider: string)

  function Changed(v: string, n: Name): seq<Change> {
    if n.Logical? then [Change(FLAG, n.value, TrimSpace(v))] else []
  }

  /** The values replaced, in order. */
  function Changes(args: seq<string>, cfg: Config): seq<Change>
    requires Injective(cfg.forward)
    decreases |args|
  {
    match At(args)
    case Done => []
    case Inline(v) => Changed(v, NameFor(v, cfg)) + Changes(args[1..], cfg)
    case Separate(v) => Changed(v, NameFor(v, cfg)) + Changes(args[2..], cfg)
    case Other => Changes(args[1..], cfg)
  }

  /** Each value replaced was the target of the alias it was replaced by. */
  lemma {:induction false} ChangesUndoAliases(args: seq<string>, cfg: Config)
    requires Injective(cfg.forward)
    ensures forall c | c in Changes(args, cfg) ::
              c.source == FLAG && c.logical != DEFAULT_KEY
              && c.logical in cfg.forward && cfg.forward[c.logical] == c.provider
    decreases |args|
  {
    hide TrimSpace, LooksProviderSpecific, Injective, ReverseOf;
    ReverseIs(cfg.forward);
    match At(args) {
      case Done =>
      case Inline(_) => ChangesUndoAliases(args[1..], cfg);
      case Separate(_) => ChangesUndoAliases(args[2..], cfg);
      case Other => ChangesUndoAliases(args[1..], cfg);
    }
  }

  /** Trimmed, without blanks, each value once, at its first place. */
  function Firsts(xs: seq<string>): (r: seq<string>)
    ensures |r| <= |xs|
  {
    if xs == [] then []
    else
      var r := Firsts(xs[..|xs| - 1]);
      var v := TrimSpace(xs[|xs| - 1]);
      if v == "" || v in r then r else r + [v]
  }

  method Dedupe(xs: seq<string>) returns (out: seq<string>)
    ensures out == Firsts(xs)
  {
    hide TrimSpace;
    out := [];
    var seen: set<string> := {};
    var i := 0;
    while i < |xs|
      invariant i <= |xs| && out == Firsts(xs[..i])
      invariant seen == set v | v in out
    {
      assert xs[..i + 1][..i] == xs[..i];
      var v := TrimSpace(xs[i]);
      if v != "" && v !in seen {
        seen := seen + {v};
        out := out + [v];
      }
      i := i + 1;
    }
    assert xs[..i] == xs;
  }

  lemma {:induction false} FirstsHold(xs: seq<string>)
    ensures forall v :: v in Firsts(xs) <==> v != "" && exists i :: 0 <= i < |xs| && TrimSpace(xs[i]) == v
    ensures forall i, j | 0 <= i < j < |Firsts(xs)| :: Firsts(xs)[i] != Firsts(xs)[j]
  {
    hide TrimSpace;
    if xs != [] {
      var n := |xs| - 1;
      FirstsHold(xs[..n]);
      forall v ensures v in Firsts(xs) <==> v != "" && exists i :: 0 <= i < |xs| && TrimSpace(xs[i]) == v {
        if exists i :: 0 <= i < |xs| && TrimSpace(xs[i]) == v {
          var i :| 0 <= i < |xs| && TrimSpace(xs[i]) == v;
          assert i < n ==> xs[..n][i] == xs[i];
        }
        assert forall i | 0 <= i < n :: xs[..n][i] == xs[i];
      }
    }
  }

  /** The loop edits a copy in place and skips the value after a separate flag. */
  method NormalizeClaudeModelArgs(args: seq<string>, cfg: Config)
    returns (out: seq<string>, normalized: seq<Change>, unresolved: seq<string>)
    requires WellFormed(cfg.forward)
    ensures Injective(cfg.forward)
    ensures out == Normalized(args, cfg) && normalized == Changes(args, cfg)
    ensures unresolved == Firsts(Leftover(args, cfg))
  {
    hide NameFor, NameIs, WellFormed, Injective, Normalized, Leftover, Changes, Firsts, TrimSpace;
    InjectiveForward(cfg.forward);
    out := args;
    normalized := [];
    var missing: seq<string> := [];
    var i := 0;
    while i < |out|
      invariant i <= |out| == |args| && out[i..] == args[i..]
      invariant out[..i] + Normalized(args[i..], cfg) == Normalized(args, cfg)
      invariant missing + Leftover(args[i..], cfg) == Leftover(args, cfg)
      invariant normalized + Changes(args[i..], cfg) == Changes(args, cfg)
    {
      var rest := args[i..];
      assert out[i] == rest[0] && (i + 1 < |args| ==> out[i + 1] == rest[1]);
      Unfold(args, i, out, missing, cfg);
      UnfoldChanges(args, i, normalized, cfg);
      if out[i] == "--" {
        assert At(rest) == Done;
        break;
      }
      if FLAG_EQ <= out[i] {
        var value := TrimSpace(out[i][|FLAG_EQ|..]);
        NameOfTrimmed(out[i][|FLAG_EQ|..], cfg);
        var n := NormalizeModelID(value, cfg);
        if n.Logical? {
          normalized := normalized + [Change(FLAG, n.value, value)];
          out := out[i := FLAG_EQ + n.value];
        } else if n.Unresolved? {
          missing := missing + [n.value];
        }
        i := i + 1;
        continue;
      }
      if out[i] == FLAG && i + 1 < |out| {
        var value := TrimSpace(out[i + 1]);
        NameOfTrimmed(out[i + 1], cfg);
        var n := NormalizeModelID(value, cfg);
        if n.Logical? {
          normalized := normalized + [Change(FLAG, n.value, value)];
          assert "" + n.value == n.value;
          out := out[i + 1 := n.value];
        } else if n.Unresolved? {
          missing := missing + [n.value];
        }
        i := i + 1;
      }
      i := i + 1;
    }
    Finish(args, i, out, missing, normalized, cfg);
    unresolved := Dedupe(missing);
  }

  lemma {:induction false} NameOfTrimmed(v: string, cfg: Config)
    requires Injective(cfg.forward)
    ensures NameFor(TrimSpace(v), cfg) == NameFor(v, cfg)
  {
    hide TrimSpace, LooksProviderSpecific, ReverseOf, Injective;
    TrimIdempotent(v);
  }

  lemma {:induction false} UnfoldChanges(args: seq<string>, i: nat, done: seq<Change>, cfg: Config)
    requires Injective(cfg.forward) && i < |args|
    ensures match At(args[i..])
            case Done => true
            case Inline(v) =>
              (done + Changed(v, NameFor(v, cfg))) + Changes(args[i + 1..], cfg) == done + Changes(args[i..], cfg)
            case Separate(v) =>
              i + 1 < |args|
              && (done + Changed(v, NameFor(v, cfg))) + Changes(args[i + 2..], cfg) == done + Changes(args[i..], cfg)
            case Other => done + Changes(args[i + 1..], cfg) == done + Changes(args[i..], cfg)
  {
    hide NameFor, Injective, Changed;
    var rest := args[i..];
    assert rest[1..] == args[i + 1..];
    if i + 1 < |args| {
      assert rest[2..] == args[i + 2..];
    }
  }

  /** One turn of the loop, as the functions see it. */
  lemma {:induction false} Unfold(args: seq<string>, i: nat, out: seq<string>, missing: seq<string>, cfg: Config)
    requires Injective(cfg.forward) && i < |args| == |out| && out[i..] == args[i..]
    ensures var rest := args[i..];
            match At(rest)
            case Done => true
            case Inline(v) =>
              var o := out[i := Renormalized(rest[0], FLAG_EQ, NameFor(v, cfg))];
              && o[i + 1..] == args[i + 1..]
              && o[..i + 1] + Normalized(args[i + 1..], cfg) == out[..i] + Normalized(rest, cfg)
              && (missing + Missing(NameFor(v, cfg))) + Leftover(args[i + 1..], cfg) == missing + Leftover(rest, cfg)
              && (!NameFor(v, cfg).Logical? ==> o == out)
            case Separate(v) =>
              var o := out[i + 1 := Renormalized(v, "", NameFor(v, cfg))];
              && o[i + 2..] == args[i + 2..]
              && o[..i + 2] + Normalized(args[i + 2..], cfg) == out[..i] + Normalized(rest, cfg)
              && (missing + Missing(NameFor(v, cfg))) + Leftover(args[i + 2..], cfg) == missing + Leftover(rest, cfg)
              && (!NameFor(v, cfg).Logical? ==> o == out)
            case Other =>
              && out[i + 1..] == args[i + 1..]
              && out[..i + 1] + Normalized(args[i + 1..], cfg) == out[..i] + Normalized(rest, cfg)
              && missing + Leftover(args[i + 1..], cfg) == missing + Leftover(rest, cfg)
  {
    hide NameFor, Injective;
    var rest := args[i..];
    assert out[i] == out[i..][0] == rest[0];
    assert rest[1..] == args[i + 1..] && out[i + 1..] == out[i..][1..];
    match At(rest) {
      case Done =>
      case Inline(v) =>
        var x := Renormalized(rest[0], FLAG_EQ, NameFor(v, cfg));
        assert out[i := x][..i + 1] == out[..i] + [x];
      case Separate(v) =>
        var x := Renormalized(v, "", NameFor(v, cfg));
        assert out[i + 1] == out[i..][1] == rest[1];
        assert rest[2..] == args[i + 2..] && out[i + 2..] == out[i..][2..];
        assert out[i + 1 := x][..i + 2] == out[..i] + [rest[0], x];
      case Other =>
        assert out[..i + 1] == out[..i] + [rest[0]];
    }
  }

  lemma {:induction false} Finish(
      args: seq<string>, i: nat, out: seq<string>, missing: seq<string>, done: seq<Change>, cfg: Config)
    requires Injective(cfg.forward) && i <= |args| == |out| && out[i..] == args[i..] && At(args[i..]) == Done
    ensures out == out[..i] + Normalized(args[i..], cfg)
    ensures missing == missing + Leftover(args[i..], cfg) && done == done + Changes(args[i..], cfg)
  {
  }

  // ----- The gate -----

  function Hit(v: string): seq<string> {
    if TrimSpace(v) != "" && LooksProviderSpecific(TrimSpace(v)) then [TrimSpace(v)] else []
  }

  /** The provider-shaped `--model` values among the arguments. */
  function Hits(args: seq<string>): seq<string>
    decreases |args|
  {
    match At(args)
    case Done => []
    case Inline(v) => Hit(v) + Hits(args[1..])
    case Separate(v) => Hit(v) + Hits(args[2..])
    case Other => Hits(args[1..])
  }

  method ProviderSpecificModelArgs(args: seq<string>) returns (hits: seq<string>)
    ensures hits == Hits(args)
  {
    hide TrimSpace, LooksProviderSpecific, Hits;
    hits := [];
    var i := 0;
    while i < |args|
      invariant i <= |args| && hits + Hits(args[i..]) == Hits(args)
    {
      UnfoldHits(args, i, hits);
      if args[i] == "--" {
        break;
      }
      var value := "";
      if FLAG_EQ <= args[i] {
        value := TrimSpace(args[i][|FLAG_EQ|..]);
      } else if args[i] == FLAG && i + 1 < |args| {
        value := TrimSpace(args[i + 1]);
        i := i + 1;
      }
      if value != "" && LooksProviderSpecific(value) {
        hits := hits + [value];
      }
      i := i + 1;
    }
    NoMoreHits(args, i);
  }

  lemma {:induction false} NoMoreHits(args: seq<string>, i: nat)
    requires i <= |args| && At(args[i..]) == Done
    ensures Hits(args[i..]) == []
  {
  }

  lemma {:induction false} UnfoldHits(args: seq<string>, i: nat, hits: seq<string>)
    requires i < |args|
    ensures match At(args[i..])
            case Done => args[i] == "--"
            case Inline(v) =>
              FLAG_EQ <= args[i] && args[i] != "--" && v == args[i][|FLAG_EQ|..]
              && (hits + Hit(v)) + Hits(args[i + 1..]) == hits + Hits(args[i..])
            case Separate(v) =>
              args[i] == FLAG && i + 1 < |args| && v == args[i + 1]
              && (hits + Hit(v)) + Hits(args[i + 2..]) == hits + Hits(args[i..])
            case Other =>
              args[i] != "--" && !(FLAG_EQ <= args[i]) && !(args[i] == FLAG && i + 1 < |args|)
              && Hits(args[i + 1..]) == Hits(args[i..])
  {
    hide Hit;
    var rest := args[i..];
    assert rest[1..] == args[i + 1..];
    if i + 1 < |args| {
      assert rest[2..] == args[i + 2..];
    }
  }

  lemma {:induction false} LogicalNameIsNoHit(forward: Table, p: string)
    requires WellFormed(forward) && p in ReverseOf(forward)
    ensures TrimSpace(ReverseOf(forward)[p]) == ReverseOf(forward)[p] && Hit(ReverseOf(forward)[p]) == []
  {
    hide TrimSpace, LooksProviderSpecific;
    var l :| l in forward && l != DEFAULT_KEY && forward[l] == p && ReverseOf(forward)[p] == l;
    assert EntryOk(l, p);
  }

  /** After normalizing, what the gate finds is exactly what was reported unresolved: with
      nothing unresolved, the strict gate lets the arguments pass. */
  lemma {:induction false} GateSeesOnlyUnresolved(args: seq<string>, cfg: Config)
    requires WellFormed(cfg.forward) && !cfg.passthrough
    ensures Hits(Normalized(args, cfg)) == Leftover(args, cfg)
    decreases |args|
  {
    hide Hit, NameFor, WellFormed, Renormalized;
    InjectiveForward(cfg.forward);
    var out := Normalized(args, cfg);
    match At(args) {
      case Done =>
      case Inline(v) =>
        ValueGate(args[0], v, FLAG_EQ, cfg);
        assert out[1..] == Normalized(args[1..], cfg);
        GateSeesOnlyUnresolved(args[1..], cfg);
      case Separate(v) =>
        ValueGate(v, v, "", cfg);
        assert out[2..] == Normalized(args[2..], cfg);
        GateSeesOnlyUnresolved(args[2..], cfg);
      case Other =>
        assert out[1..] == Normalized(args[1..], cfg);
        GateSeesOnlyUnresolved(args[1..], cfg);
    }
  }

  lemma {:induction false} ValueGate(arg: string, v: string, prefix: string, cfg: Config)
    requires WellFormed(cfg.forward) && !cfg.passthrough && arg == prefix + v
    ensures var a := Renormalized(arg, prefix, NameFor(v, cfg));
            prefix <= a && Hit(a[|prefix|..]) == Missing(NameFor(v, cfg))
    ensures prefix == FLAG_EQ ==> Renormalized(arg, prefix, NameFor(v, cfg)) != "--"
  {
    hide TrimSpace, LooksProviderSpecific, WellFormed, ReverseOf;
    TrimIdempotent(v);
    InjectiveForward(cfg.forward);
    var n := NameFor(v, cfg);
    if n.Logical? {
      LogicalNameIsNoHit(cfg.forward, TrimSpace(v));
      assert (prefix + n.value)[|prefix|..] == n.value;
    } else {
      assert arg[|prefix|..] == v;
      BlankHasNoName(cfg.forward);
    }
  }

  // ----- Argument by argument -----

  /** Arguments that neither end the options nor are a flag waiting for its value. */
  predicate Passes(args: seq<string>) {
    forall a | a in args :: a != "--" && a != "--model"
  }

  lemma {:induction false} Prefix(pre: seq<string>, rest: seq<string>, cfg: Config)
    requires Injective(cfg.forward) && Passes(pre)
    ensures Normalized(pre + rest, cfg)[|pre|..] == Normalized(rest, cfg)
    ensures Hits(pre + rest) == Hits(pre) + Hits(rest)
    decreases |pre|
  {
    hide NameFor, Injective, Hit;
    if pre == [] {
      assert pre + rest == rest;
    } else {
      var args := pre + rest;
      assert pre[0] in pre;
      assert args[0] == pre[0] && pre[0] != "--" && pre[0] != "--model";
      assert args[1..] == pre[1..] + rest;
      assert Passes(pre[1..]) by { assert forall a | a in pre[1..] :: a in pre; }
      Prefix(pre[1..], rest, cfg);
      OneOn(args, cfg);
      OneOn(pre, cfg);
      assert Normalized(args, cfg)[1..][|pre[1..]|..] == Normalized(args, cfg)[|pre|..];
    }
  }

  lemma {:induction false} OneOn(args: seq<string>, cfg: Config)
    requires Injective(cfg.forward) && args != [] && args[0] != "--" && args[0] != "--model"
    ensures Normalized(args, cfg)[1..] == Normalized(args[1..], cfg)
    ensures Hits(args) == (if FLAG_EQ <= args[0] then Hit(args[0][|FLAG_EQ|..]) else []) + Hits(args[1..])
    ensures Normalized(args, cfg)[0] ==
            if FLAG_EQ <= args[0]
            then Renormalized(args[0], FLAG_EQ, NameFor(args[0][|FLAG_EQ|..], cfg)) else args[0]
  {
    hide NameFor, Injective, Hit;
  }

  /** Wherever in the options a model is given, inline or as the next argument, the value
      comes out as the alias's name if it is an alias's target, and as it was otherwise. */
  lemma {:induction false} ValueIsNamed(pre: seq<string>, v: string, rest: seq<string>, cfg: Config)
    requires WellFormed(cfg.forward) && Passes(pre)
    ensures Injective(cfg.forward)
    ensures var out := Normalized(pre + ["--model=" + v] + rest, cfg)[|pre|];
            && (forall l | l in cfg.forward && l != "*" && cfg.forward[l] == TrimSpace(v) :: out == "--model=" + l)
            && ((forall l | l in cfg.forward && l != "*" :: cfg.forward[l] != TrimSpace(v)) ==> out == "--model=" + v)
    ensures var out := Normalized(pre + ["--model", v] + rest, cfg);
            && out[|pre|] == "--model"
            && (forall l | l in cfg.forward && l != "*" && cfg.forward[l] == TrimSpace(v) :: out[|pre| + 1] == l)
            && ((forall l | l in cfg.forward && l != "*" :: cfg.forward[l] != TrimSpace(v)) ==> out[|pre| + 1] == v)
  {
    hide TrimSpace, LooksProviderSpecific, WellFormed, NameFor;
    InjectiveForward(cfg.forward);
    NameForIs(v, cfg);
    var inline, separate := ["--model=" + v] + rest, ["--model", v] + rest;
    assert pre + ["--model=" + v] + rest == pre + inline && pre + ["--model", v] + rest == pre + separate;
    Prefix(pre, inline, cfg);
    Prefix(pre, separate, cfg);
    InlineNamed(v, rest, cfg);
    SeparateNamed(v, rest, cfg);
    FromThere(Normalized(pre + inline, cfg), |pre|, 0);
    FromThere(Normalized(pre + separate, cfg), |pre|, 0);
    FromThere(Normalized(pre + separate, cfg), |pre|, 1);
  }

  lemma {:induction false} FromThere(xs: seq<string>, n: nat, i: nat)
    requires n + i < |xs|
    ensures xs[n..][i] == xs[n + i]
  {
  }

  lemma {:induction false} InlineNamed(v: string, rest: seq<string>, cfg: Config)
    requires Injective(cfg.forward)
    ensures Normalized(["--model=" + v] + rest, cfg)[0] ==
            if NameFor(v, cfg).Logical? then "--model=" + NameFor(v, cfg).value else "--model=" + v
  {
    hide NameFor, Injective;
    var args := ["--model=" + v] + rest;
    assert FLAG_EQ <= args[0] && args[0][|FLAG_EQ|..] == v;
    assert |args[0]| >= 8 && args[0] != "--";
  }

  lemma {:induction false} SeparateNamed(v: string, rest: seq<string>, cfg: Config)
    requires Injective(cfg.forward)
    ensures var out := Normalized(["--model", v] + rest, cfg);
            out[0] == "--model" && out[1] == if NameFor(v, cfg).Logical? then NameFor(v, cfg).value else v
  {
    hide NameFor, Injective;
    var args := ["--model", v] + rest;
    assert |FLAG_EQ| == 8 && |args[0]| == 7 && args[0] == FLAG && args[1] == v;
    assert forall n: Name :: n.Logical? ==> "" + n.value == n.value;
  }

  /** The gate finds a value exactly where it is a provider's id. */
  lemma {:induction false} ValueIsHit(pre: seq<string>, v: string, rest: seq<string>, cfg: Config)
    requires Passes(pre) && Injective(cfg.forward) && TrimSpace(v) != "" && LooksProviderSpecific(TrimSpace(v))
    ensures TrimSpace(v) in Hits(pre + ["--model=" + v] + rest) && TrimSpace(v) in Hits(pre + ["--model", v] + rest)
  {
    hide TrimSpace, LooksProviderSpecific, Injective;
    var inline, separate := ["--model=" + v] + rest, ["--model", v] + rest;
    assert pre + ["--model=" + v] + rest == pre + inline && pre + ["--model", v] + rest == pre + separate;
    Prefix(pre, inline, cfg);
    Prefix(pre, separate, cfg);
    assert inline[0] == "--model=" + v && inline[0] != "--" && inline[0][|FLAG_EQ|..] == v && FLAG_EQ <= inline[0];
    assert |FLAG_EQ| == 8 && |separate[0]| == 7 && separate[0] == FLAG && separate[1] == v;
    assert TrimSpace(v) in Hit(v);
    assert At(inline) == Inline(v) && At(separate) == Separate(v);
  }

  /** Arguments that give no model, and everything from `--` on, come out as they were. */
  lemma {:induction false} OthersStay(pre: seq<string>, a: string, rest: seq<string>, cfg: Config)
    requires Injective(cfg.forward) && Passes(pre) && a != "--model" && !("--model=" <= a)
    ensures Normalized(pre + [a] + rest, cfg)[|pre|] == a
    ensures a == "--" ==> Normalized(pre + [a] + rest, cfg)[|pre|..] == [a] + rest
  {
    hide NameFor, Injective;
    var args := [a] + rest;
    assert pre + [a] + rest == pre + args;
    Prefix(pre, args, cfg);
    if a != "--" {
      OneOn(args, cfg);
    }
    FromThere(Normalized(pre + args, cfg), |pre|, 0);
  }
}

/** Rewriting the model of a request on its way upstream, with the way back that the
    response rewriter is given. */
module ModelRequest {
  import opened Prelude
  import opened Text
  import opened Json
  import opened ModelAlias
  import opened ModelResponse

  const SYSTEM := "system"
  const REQUESTS := "requests"
  const PARAMS := "params"

  // ----- The model of one request object -----

  datatype Refusal = NotJson | ModelNotString | ProviderSpecific | RequestsNotArray | ParamsNotObject

  /** What a request object is sent as. */
  datatype Sent = Sent(changed: bool, logical: string, upstream: string, obj: Members)

  method RewriteObjectModel(obj: Members, cfg: Config) returns (r: Result<Sent, Refusal>)
    requires WellFormed(cfg.forward)
    ensures r == SentAs(obj, cfg)
  {
    hide IsClaudeModel, LooksProviderSpecific, WellFormed;
    if MODEL !in obj {
      return Ok(Sent(false, "", "", obj));
    }
    var id := AsString(obj[MODEL]);
    if id.None? {
      return Err(ModelNotString);
    }
    var model := id.value;
    var provider := if model in cfg.forward then cfg.forward[model] else "";
    var ok := model in cfg.forward;
    if !ok && IsClaudeModel(model) {
      provider := Default(cfg.forward);
      ok := provider != "";
    }
    if ok && model != DEFAULT_KEY {
      return Ok(Sent(true, model, provider, obj[MODEL := Str(provider)]));
    }
    if cfg.strict && LooksProviderSpecific(model) {
      return Err(ProviderSpecific);
    }
    return Ok(Sent(false, model, model, obj));
  }

  function SentAs(obj: Members, cfg: Config): Result<Sent, Refusal> {
    if MODEL !in obj then Ok(Sent(false, "", "", obj))
    else match AsString(obj[MODEL])
         case None => Err(ModelNotString)
         case Some(model) =>
           match Target(cfg.forward, model)
           case Some(p) => Ok(Sent(true, model, p, obj[MODEL := Str(p)]))
           case None =>
             if cfg.strict && LooksProviderSpecific(model) then Err(ProviderSpecific)
             else Ok(Sent(false, model, model, obj))
  }

  /** What a request object goes out as, member by member: an alias's target or the default's
      under `model`, or the object as it came; it is refused for a model that is no string,
      and in strict mode for a provider's id that has no alias, and for nothing else. */
  lemma {:induction false} SentIs(obj: Members, cfg: Config)
    requires WellFormed(cfg.forward)
    ensures "model" !in obj ==> SentAs(obj, cfg) == Ok(Sent(false, "", "", obj))
    ensures "model" in obj && !obj["model"].Str? && !obj["model"].Null? ==> SentAs(obj, cfg) == Err(ModelNotString)
    ensures "model" in obj && obj["model"].Str? ==>
              var m := obj["model"].s; var r := SentAs(obj, cfg);
              && (m != "*" && m in cfg.forward ==>
                    r == Ok(Sent(true, m, cfg.forward[m], obj["model" := Str(cfg.forward[m])])))
              && (m !in cfg.forward && "claude-" <= ToLower(m) && "*" in cfg.forward && cfg.forward["*"] != "*" ==>
                    r == Ok(Sent(true, m, cfg.forward["*"], obj["model" := Str(cfg.forward["*"])])))
              && (m == "*" || (m !in cfg.forward
                               && !("claude-" <= ToLower(m) && "*" in cfg.forward && cfg.forward["*"] != "*")) ==>
                    r == if cfg.strict && LooksProviderSpecific(m) then Err(ProviderSpecific)
                         else Ok(Sent(false, m, m, obj)))
  {
    hide WellFormed, Target, LooksProviderSpecific, ToLower;
    if "model" in obj && obj["model"].Str? {
      TargetIs(cfg.forward, obj["model"].s);
    }
  }

  /** In strict mode nothing provider-shaped goes out unless some alias made it so. */
  lemma {:induction false} StrictSendsNoStrayProviderId(obj: Members, cfg: Config)
    requires cfg.strict && WellFormed(cfg.forward) && SentAs(obj, cfg).Ok?
    ensures var s := SentAs(obj, cfg).value;
            LooksProviderSpecific(s.upstream) ==> exists l :: l in cfg.forward && cfg.forward[l] == s.upstream
  {
    hide IsClaudeModel, WellFormed, ToLower;
    BlankIsNoProviderId();
  }

  lemma {:induction false} BlankIsNoProviderId()
    ensures !LooksProviderSpecific("")
  {
  }

  // ----- Claude Code's own system blocks -----

  const BILLING := "x-anthropic-billing-header"
  const IDENTITIES: set<string> := {
    "You are Claude Code, Anthropic's official CLI for Claude.",
    "You are Claude Code, Anthropic's official CLI for Claude, running within the Claude Agent SDK.",
    "You are a Claude agent, built on Anthropic's Claude Agent SDK."
  }

  predicate DropsText(text: string) {
    BILLING <= text || text in IDENTITIES
  }

  /** A text member: absent or null reads as "". */
  function TextMember(m: Members, k: string): Option<string> {
    if k in m then AsString(m[k]) else Some("")
  }

  predicate Drops(elem: Json) {
    match elem
    case Obj(m) =>
      && TextMember(m, "type") == Some("text") && TextMember(m, "text").Some?
      && DropsText(TextMember(m, "text").value)
    case Str(s) => DropsText(s)
    case _ => false
  }

  /** The elements that stay, in their order. */
  function Kept(items: seq<Json>): (r: seq<Json>)
    ensures |r| <= |items|
  {
    if items == [] then []
    else
      var last := items[|items| - 1];
      if Drops(last) then Kept(items[..|items| - 1]) else Kept(items[..|items| - 1]) + [last]
  }

  lemma {:induction false} KeptAll(items: seq<Json>)
    ensures |Kept(items)| == |items| <==> forall e | e in items :: !Drops(e)
    ensures |Kept(items)| == |items| ==> Kept(items) == items
    ensures forall e :: e in Kept(items) <==> e in items && !Drops(e)
  {
    hide Drops;
    if items != [] {
      KeptAll(items[..|items| - 1]);
      assert items == items[..|items| - 1] + [items[|items| - 1]];
    }
  }

  lemma {:induction false} KeptExtends(items: seq<Json>, i: nat)
    requires i < |items|
    ensures Kept(items[..i + 1]) == Kept(items[..i]) + if Drops(items[i]) then [] else [items[i]]
    ensures items[..i + 1] == items[..i] + [items[i]]
  {
    hide Drops;
    assert items[..i + 1][..i] == items[..i];
  }

  /** The three texts of Claude Code's own, and anything that starts like its billing header:
      as an element by itself, or as the text of a text block. */
  lemma {:induction false} DropsIff(elem: Json)
    ensures elem.Str? ==> (Drops(elem) <==> IsOwnText(elem.s))
    ensures elem.Obj? && "type" in elem.members && elem.members["type"] == Str("text")
            && "text" in elem.members && elem.members["text"].Str? ==>
              (Drops(elem) <==> IsOwnText(elem.members["text"].s))
    ensures elem.Obj? && "type" in elem.members && elem.members["type"].Str? && elem.members["type"].s != "text" ==>
              !Drops(elem)
    ensures elem.Arr? || elem.Num? || elem.Bool? || elem.Null? ==> !Drops(elem)
  {
  }

  predicate IsOwnText(text: string) {
    || "x-anthropic-billing-header" <= text
    || text == "You are Claude Code, Anthropic's official CLI for Claude."
    || text == "You are Claude Code, Anthropic's official CLI for Claude, running within the Claude Agent SDK."
    || text == "You are a Claude agent, built on Anthropic's Claude Agent SDK."
  }

  /** What is kept is kept piece by piece, in the order it came in. */
  lemma {:induction false} KeptPieces(a: seq<Json>, b: seq<Json>)
    ensures Kept(a + b) == Kept(a) + Kept(b)
    decreases |b|
  {
    hide Drops, Kept;
    if b == [] {
      KeptNone();
      assert a + b == a && Kept(a) + [] == Kept(a);
    } else {
      var n := |b| - 1;
      var ab := a + b;
      KeptPieces(a, b[..n]);
      assert ab[..|ab| - 1] == a + b[..n] && ab[|ab| - 1] == b[n];
      KeptLast(ab);
      KeptLast(b);
      var last := if Drops(b[n]) then [] else [b[n]];
      assert Kept(a) + (Kept(b[..n]) + last) == (Kept(a) + Kept(b[..n])) + last;
    }
  }

  lemma {:induction false} KeptNone()
    ensures Kept([]) == []
  {
  }

  lemma {:induction false} KeptLast(items: seq<Json>)
    requires items != []
    ensures var n := |items| - 1;
            Kept(items) == Kept(items[..n]) + if Drops(items[n]) then [] else [items[n]]
  {
    hide Drops;
  }

  lemma {:induction false} KeptOne(e: Json)
    ensures Kept([e]) == if Drops(e) then [] else [e]
  {
    hide Drops, Kept;
    KeptLast([e]);
    KeptNone();
    assert [e][..0] == [];
  }

  /** Only `system` can change, only if it is an array, and only if something of it is
      dropped: then the elements that stay are left, or, with none to stay, no `system`. */
  lemma {:induction false} StrippedIs(obj: Members)
    ensures forall k | k != "system" :: (k in Stripped(obj) <==> k in obj) && (k in obj ==> Stripped(obj)[k] == obj[k])
    ensures "system" in obj && obj["system"].Arr? ==>
              var items, out := obj["system"].items, Stripped(obj);
              && ("system" !in out <==> items != [] && forall e | e in items :: Drops(e))
              && ("system" in out ==> out["system"] == Arr(Kept(items)))
    ensures !("system" in obj && obj["system"].Arr?) ==> Stripped(obj) == obj
  {
    hide Drops, Kept;
    if "system" in obj && obj["system"].Arr? {
      var items := obj["system"].items;
      KeptAll(items);
      assert Kept(items) != [] ==> Kept(items)[0] in Kept(items);
      assert items != [] ==> items[0] in items;
    }
    if "system" in obj && obj["system"].Null? {
      assert AsArray(obj["system"]) == Some([]);
    } else if "system" in obj && !obj["system"].Arr? {
      assert AsArray(obj["system"]).None?;
    }
  }

  function Stripped(obj: Members): Members {
    if SYSTEM !in obj || AsArray(obj[SYSTEM]).None? then obj
    else
      var items := AsArray(obj[SYSTEM]).value;
      if forall e | e in items :: !Drops(e) then obj
      else if Kept(items) == [] then obj - {SYSTEM}
      else obj[SYSTEM := Arr(Kept(items))]
  }

  method StripSystemBlocks(obj: Members) returns (out: Members)
    ensures out == Stripped(obj)
  {
    hide Drops, Kept;
    if SYSTEM !in obj || AsArray(obj[SYSTEM]).None? {
      return obj;
    }
    var items := AsArray(obj[SYSTEM]).value;
    var kept := [];
    var dropped := false;
    var i := 0;
    assert Kept(items[..0]) == [];
    while i < |items|
      invariant i <= |items| && kept == Kept(items[..i])
      invariant dropped <==> exists e :: e in items[..i] && Drops(e)
    {
      KeptExtends(items, i);
      if Drops(items[i]) {
        dropped := true;
      } else {
        kept := kept + [items[i]];
      }
      i := i + 1;
    }
    assert items[..i] == items;
    if !dropped {
      return obj;
    }
    return if kept == [] then obj - {SYSTEM} else obj[SYSTEM := Arr(kept)];
  }

  // ----- A whole body -----

  datatype Endpoint = Elsewhere | Messages | Batches

  function EndpointOf(path: string): Endpoint {
    var p := TrimRight(path, c => c == '/');
    if p == "/v1/messages/batches" then Batches
    else if p == "/v1/messages" || p == "/v1/messages/count_tokens" then Messages
    else Elsewhere
  }

  /** The three paths that carry models, with any number of slashes after them. */
  lemma {:induction false} EndpointIs(path: string, slashes: string)
    requires All(slashes, c => c == '/') && (path != "" ==> path[|path| - 1] != '/')
    ensures EndpointOf(path + slashes) ==
            match path
            case "/v1/messages" => Messages
            case "/v1/messages/count_tokens" => Messages
            case "/v1/messages/batches" => Batches
            case _ => Elsewhere
  {
    var cut := (c: char) => c == '/';
    if path != "" {
      TrimRightSkips(path, slashes, cut);
      SameCut(path + slashes, cut);
    } else {
      AllCut(slashes, cut);
      assert "" + slashes == slashes;
      SameCut(slashes, cut);
    }
  }

  lemma {:induction false} SameCut(s: string, cut: char -> bool)
    requires forall c :: cut(c) <==> c == '/'
    ensures TrimRight(s, c => c == '/') == TrimRight(s, cut)
    decreases |s|
  {
    if s != "" {
      SameCut(s[..|s| - 1], cut);
    }
  }

  lemma {:induction false} AllCut(s: string, cut: char -> bool)
    requires All(s, cut)
    ensures TrimRight(s, cut) == ""
    decreases |s|
  {
    if s != "" {
      AllCut(s[..|s| - 1], cut);
    }
  }

  /** A body that is only white space, one that is no JSON, or a parsed one. */
  datatype Body = Blank | Garbage | Parsed(j: Json)

  datatype Context = Context(
    rewritten: bool, normalize: bool, logical: string, upstream: string, unmapped: bool, reverse: Table)

  /** The bytes as they came, or a newly encoded object. */
  datatype Upstream = AsSent | Encoded(obj: Members)

  predicate Rewrites(cfg: Config) {
    cfg.forward != map[] || cfg.strict
  }

  /** What is recorded of a request nothing is rewritten in. */
  function Untouched(cfg: Config): Context
    requires Injective(cfg.forward)
  {
    Context(false, false, "", "", false, ReverseOf(cfg.forward))
  }

  method RewriteBody(path: string, body: Body, cfg: Config, keepMetadata: bool)
    returns (r: Result<(Upstream, Context), Refusal>)
    requires WellFormed(cfg.forward)
    ensures Injective(cfg.forward)
    ensures !Rewrites(cfg) || EndpointOf(path) == Elsewhere || body.Blank? ==> r == Ok((AsSent, Untouched(cfg)))
    ensures Rewrites(cfg) && EndpointOf(path) != Elsewhere && body.Garbage? ==> r == Err(NotJson)
    ensures Rewrites(cfg) && EndpointOf(path) == Messages && body.Parsed? ==> MessageSent(body.j, cfg, keepMetadata, r)
    ensures Rewrites(cfg) && EndpointOf(path) == Batches && body.Parsed? ==> BatchSent(body.j, cfg, r)
  {
    hide WellFormed, Injective, ReverseOf, Target, Stripped, IsClaudeModel, LooksProviderSpecific, EntryOk, EndpointOf;
    InjectiveTable(cfg.forward);
    var reverse := ReverseMap(cfg.forward);
    var ctx := Context(false, false, "", "", false, reverse);
    if !Rewrites(cfg) || EndpointOf(path) == Elsewhere || body.Blank? {
      return Ok((AsSent, ctx));
    }
    if body.Garbage? {
      return Err(NotJson);
    }
    if EndpointOf(path) == Batches {
      r := RewriteBatch(body.j, cfg, ctx);
      return;
    }
    if AsObject(body.j).None? {
      return Err(NotJson);
    }
    var sent := RewriteObjectModel(AsObject(body.j).value, cfg);
    if sent.Err? {
      return Err(sent.error);
    }
    var s := sent.value;
    ctx := ctx.(logical := s.logical, upstream := s.upstream);
    if !s.changed {
      return Ok((AsSent, ctx.(unmapped := Unmaps(cfg.forward, s.logical))));
    }
    var obj := s.obj;
    if !IsClaudeModel(s.upstream) && !keepMetadata {
      obj := StripSystemBlocks(obj);
    }
    return Ok((Encoded(obj),
               ctx.(rewritten := true, normalize := true, reverse := WithReverse(reverse, s.upstream, s.logical))));
  }

  lemma {:induction false} InjectiveTable(forward: Table)
    requires WellFormed(forward)
    ensures Injective(forward)
  {
  }

  /** What a single message goes out as. */
  ghost predicate MessageSent(j: Json, cfg: Config, keepMetadata: bool, r: Result<(Upstream, Context), Refusal>)
    requires Injective(cfg.forward)
  {
    if AsObject(j).None? then r == Err(NotJson)
    else
      var obj := AsObject(j).value;
      if SentAs(obj, cfg).Err? then r == Err(SentAs(obj, cfg).error)
      else
        var s := SentAs(obj, cfg).value;
        && r.Ok?
        && var (out, ctx) := r.value;
           && ctx.logical == s.logical && ctx.upstream == s.upstream
           && ctx.rewritten == ctx.normalize == s.changed
           && ctx.unmapped == (!s.changed && Unmaps(cfg.forward, s.logical))
           && out == (if !s.changed then AsSent
                      else Encoded(if IsClaudeModel(s.upstream) || keepMetadata then s.obj else Stripped(s.obj)))
           && ctx.reverse == (if s.changed then WithReverse(ReverseOf(cfg.forward), s.upstream, s.logical)
                              else ReverseOf(cfg.forward))
  }

  /** Whatever a rewritten message loses, it is only the model's name and the dropped system
      blocks: every other member is sent as it came. */
  lemma {:induction false} MessageKeepsTheRest(
      j: Json, cfg: Config, keepMetadata: bool, r: Result<(Upstream, Context), Refusal>, k: string)
    requires Injective(cfg.forward) && MessageSent(j, cfg, keepMetadata, r) && r.Ok? && r.value.0.Encoded?
    ensures var before, after := AsObject(j).value, r.value.0.obj;
            && MODEL in before && MODEL in after && after[MODEL] == Str(r.value.1.upstream)
            && AsString(before[MODEL]) == Some(r.value.1.logical)
            && Target(cfg.forward, r.value.1.logical) == Some(r.value.1.upstream)
            && (k !in {MODEL, SYSTEM} ==> (k in after <==> k in before) && (k in before ==> after[k] == before[k]))
  {
    hide Target, IsClaudeModel, LooksProviderSpecific, Kept, Drops, Unmaps, ReverseOf;
  }

  /** When a message is rewritten, when it goes out as it came, and when it is refused; the
      model that goes unmapped is a Claude name on a route with aliases but no default. */
  lemma {:induction false} MessageRewrittenIff(
      obj: Members, cfg: Config, keepMetadata: bool, r: Result<(Upstream, Context), Refusal>)
    requires WellFormed(cfg.forward) && Injective(cfg.forward) && MessageSent(Obj(obj), cfg, keepMetadata, r)
    requires "model" in obj && obj["model"].Str?
    ensures var m := obj["model"].s;
            var mine := m != "*" && m in cfg.forward;
            var dflt := m !in cfg.forward && "claude-" <= ToLower(m) && "*" in cfg.forward && cfg.forward["*"] != "*";
            && (r.Err? <==> !mine && !dflt && cfg.strict && LooksProviderSpecific(m))
            && (r.Ok? ==>
                  && (r.value.0.Encoded? <==> mine || dflt)
                  && r.value.1.logical == m
                  && r.value.1.upstream == (if mine then cfg.forward[m] else if dflt then cfg.forward["*"] else m)
                  && r.value.1.rewritten == r.value.1.normalize == (mine || dflt)
                  && (r.value.1.unmapped <==>
                        cfg.forward != map[] && "claude-" <= ToLower(m) && m !in cfg.forward && "*" !in cfg.forward))
  {
    hide WellFormed, Injective, LooksProviderSpecific, ToLower, Target, Unmaps, Stripped, ReverseOf, SentAs,
      IsClaudeModel;
    SentIs(obj, cfg);
    TargetIs(cfg.forward, obj["model"].s);
    if obj["model"].s == "*" {
      StarNeverUnmapped(cfg.forward);
    }
  }

  lemma {:induction false} StarNeverUnmapped(forward: Table)
    ensures !("claude-" <= ToLower("*"))
  {
  }

  /** A message without a model goes out as it came. */
  lemma {:induction false} NoModelNoRewrite(
      obj: Members, cfg: Config, keepMetadata: bool, r: Result<(Upstream, Context), Refusal>)
    requires WellFormed(cfg.forward) && Injective(cfg.forward) && MessageSent(Obj(obj), cfg, keepMetadata, r)
    requires "model" !in obj
    ensures r == Ok((AsSent, Untouched(cfg)))
  {
    hide WellFormed, Injective, ReverseOf, LooksProviderSpecific, SentAs, Unmaps;
    SentIs(obj, cfg);
    BlankNeverUnmapped(cfg.forward);
    var (out, ctx) := r.value;
    assert out == AsSent && ctx == Untouched(cfg);
  }

  lemma {:induction false} BlankNeverUnmapped(forward: Table)
    ensures !Unmaps(forward, "")
  {
  }

  /** Claude Code's own system blocks are dropped exactly where the model that is sent is no
      Claude model and nobody asked to keep them. */
  lemma {:induction false} SystemDroppedIff(
      obj: Members, cfg: Config, keepMetadata: bool, r: Result<(Upstream, Context), Refusal>)
    requires WellFormed(cfg.forward) && Injective(cfg.forward) && MessageSent(Obj(obj), cfg, keepMetadata, r)
    requires r.Ok? && r.value.0.Encoded?
    ensures var after := r.value.0.obj;
            if keepMetadata || "claude-" <= ToLower(r.value.1.upstream) || !("system" in obj && obj["system"].Arr?) then
              ("system" in after <==> "system" in obj) && ("system" in obj ==> after["system"] == obj["system"])
            else
              var items := obj["system"].items;
              && ("system" !in after <==> items != [] && forall e | e in items :: Drops(e))
              && ("system" in after ==> after["system"] == Arr(Kept(items)))
  {
    hide WellFormed, Injective, LooksProviderSpecific, ToLower, Target, Unmaps, Stripped, ReverseOf, Drops, Kept;
    var s := SentAs(obj, cfg).value;
    StrippedIs(s.obj);
    assert "system" != "model";
  }

  /** The whole way round: where the answer to a rewritten message names the model it was
      sent with, the client reads the model it asked for. */
  lemma {:induction false} MessageRoundTrip(
      j: Json, cfg: Config, keepMetadata: bool, r: Result<(Upstream, Context), Refusal>, response: Json, path: seq<Hop>)
    requires Unambiguous(cfg.forward) && MessageSent(j, cfg, keepMetadata, r) && r.Ok? && r.value.0.Encoded?
    requires Reach(response, path).Some? && MODEL in Reach(response, path).value
    requires Reach(response, path).value[MODEL] == r.value.0.obj[MODEL]
    ensures var back := Normalize(response, r.value.1.reverse);
            && Reach(back, path).Some? && MODEL in Reach(back, path).value
            && Reach(back, path).value[MODEL] == Str(AsString(AsObject(j).value[MODEL]).value)
  {
    hide Target, IsClaudeModel, Kept, Drops, Unmaps, Normalize, Reach, ReverseOf;
    MessageKeepsTheRest(j, cfg, keepMetadata, r, MODEL);
    ResponseNamesRequestedModel(cfg.forward, r.value.1.logical, response, path);
  }

  // ----- A batch -----

  /** The items of a batch, each with the model of its params rewritten. */
  function ItemSent(item: Json, cfg: Config): Result<Option<(Json, string, string)>, Refusal>
    requires AsObject(item).Some?
  {
    var m := AsObject(item).value;
    if PARAMS !in m then Ok(None)
    else match AsObject(m[PARAMS])
         case None => Err(ParamsNotObject)
         case Some(params) =>
           match SentAs(params, cfg)
           case Err(e) => Err(e)
           case Ok(s) => Ok(if s.changed then Some((Obj(m[PARAMS := Obj(s.obj)]), s.logical, s.upstream)) else None)
  }

  function ItemAfter(item: Json, cfg: Config): Json
    requires AsObject(item).Some? && ItemSent(item, cfg).Ok?
  {
    match ItemSent(item, cfg).value
    case Some(t) => t.0
    case None => item
  }

  predicate ItemsOk(items: seq<Json>, cfg: Config) {
    forall i | 0 <= i < |items| :: AsObject(items[i]).Some? && ItemSent(items[i], cfg).Ok?
  }

  predicate SomeChanged(items: seq<Json>, cfg: Config)
    requires ItemsOk(items, cfg)
  {
    exists i | 0 <= i < |items| :: ItemSent(items[i], cfg).value.Some?
  }

  /** The names the first rewritten item was asked for and sent with. */
  function FirstNames(items: seq<Json>, cfg: Config): (string, string)
    requires ItemsOk(items, cfg)
  {
    if items == [] then ("", "")
    else match ItemSent(items[0], cfg).value
         case Some(t) => (t.1, t.2)
         case None => ItemsOkTail(items, cfg); FirstNames(items[1..], cfg)
  }

  lemma {:induction false} ItemsOkTail(items: seq<Json>, cfg: Config)
    requires items != [] && ItemsOk(items, cfg)
    ensures ItemsOk(items[1..], cfg)
  {
    hide ItemSent;
  }

  /** What a batch with a rewritten item records. */
  function Recorded(items: seq<Json>, cfg: Config, ctx: Context): Context
    requires ItemsOk(items, cfg)
  {
    ctx.(rewritten := true, normalize := true,
         logical := FirstNames(items, cfg).0, upstream := FirstNames(items, cfg).1)
  }

  /** A batch goes out whole or not at all: every item is rewritten by itself, the rest of
      the object stays, and the way back is that of the explicit aliases. */
  ghost predicate BatchSent(j: Json, cfg: Config, r: Result<(Upstream, Context), Refusal>)
    requires Injective(cfg.forward)
  {
    if AsObject(j).None? then r == Err(NotJson)
    else
      var obj := AsObject(j).value;
      if REQUESTS !in obj then r == Ok((AsSent, Untouched(cfg)))
      else
        match AsArray(obj[REQUESTS])
        case None => r == Err(RequestsNotArray)
        case Some(items) =>
          && (r.Ok? <==> ItemsOk(items, cfg))
          && (r.Ok? ==>
                var (out, ctx) := r.value;
                if !SomeChanged(items, cfg) then out == AsSent && ctx == Untouched(cfg)
                else
                  && out == Encoded(obj[REQUESTS := Arr(ItemsAfter(items, cfg))])
                  && ctx == Recorded(items, cfg, Untouched(cfg)))
  }

  function ItemsAfter(items: seq<Json>, cfg: Config): seq<Json>
    requires ItemsOk(items, cfg)
  {
    seq(|items|, i requires 0 <= i < |items| => ItemAfter(items[i], cfg))
  }

  /** On success every member but `params`, and every member of the params but `model`, is
      sent as it came, and `model` is the target of the one that came. */
  method RewriteItem(item: Json, cfg: Config) returns (r: Result<Option<(Json, string, string)>, Refusal>)
    requires WellFormed(cfg.forward) && AsObject(item).Some?
    ensures r == ItemSent(item, cfg)
    ensures var m := AsObject(item).value; var params := if PARAMS in m then AsObject(m[PARAMS]) else Some(map[]);
            && (params.None? ==> r == Err(ParamsNotObject))
            && (r.Err? <==> params.None? || SentAs(params.value, cfg).Err?)
            && (r.Ok? && r.value.None? && params.Some? && MODEL in params.value ==>
                  AsString(params.value[MODEL]).Some?
                  && Target(cfg.forward, AsString(params.value[MODEL]).value) == None)
            && (r.Ok? && r.value.Some? ==>
                  && params.Some? && ItemDiffers(m, params.value, r.value.value.0, r.value.value.1, r.value.value.2)
                  && Target(cfg.forward, r.value.value.1) == Some(r.value.value.2))
  {
    hide SentAs, WellFormed, Target;
    ItemKeepsTheRest(item, cfg);
    var m := AsObject(item).value;
    if PARAMS !in m {
      return Ok(None);
    }
    if AsObject(m[PARAMS]).None? {
      return Err(ParamsNotObject);
    }
    var sent := RewriteObjectModel(AsObject(m[PARAMS]).value, cfg);
    if sent.Err? {
      return Err(sent.error);
    }
    var s := sent.value;
    return Ok(if s.changed then Some((Obj(m[PARAMS := Obj(s.obj)]), s.logical, s.upstream)) else None);
  }

  /** The item sent is the one that came but for the model of its params. */
  predicate ItemDiffers(m: Members, params: Members, sent: Json, logical: string, upstream: string) {
    && sent.Obj? && sent.members.Keys == m.Keys && PARAMS in m
    && (forall k | k in m && k != PARAMS :: sent.members[k] == m[k])
    && sent.members[PARAMS].Obj?
    && var after := sent.members[PARAMS].members;
       && after.Keys == params.Keys && MODEL in params
       && (forall k | k in params && k != MODEL :: after[k] == params[k])
       && after[MODEL] == Str(upstream) && AsString(params[MODEL]) == Some(logical)
  }

  lemma {:induction false} ItemKeepsTheRest(item: Json, cfg: Config)
    requires AsObject(item).Some?
    ensures var m := AsObject(item).value; var params := if PARAMS in m then AsObject(m[PARAMS]) else Some(map[]);
            var r := ItemSent(item, cfg);
            && (params.None? ==> r == Err(ParamsNotObject))
            && (r.Err? <==> params.None? || SentAs(params.value, cfg).Err?)
            && (r.Ok? && r.value.None? && params.Some? && MODEL in params.value ==>
                  AsString(params.value[MODEL]).Some?
                  && Target(cfg.forward, AsString(params.value[MODEL]).value) == None)
            && (r.Ok? && r.value.Some? ==>
                  && params.Some? && ItemDiffers(m, params.value, r.value.value.0, r.value.value.1, r.value.value.2)
                  && Target(cfg.forward, r.value.value.1) == Some(r.value.value.2))
  {
    hide Target, LooksProviderSpecific;
  }

  method RewriteItems(items: seq<Json>, cfg: Config, ctx0: Context) returns (r: Result<(seq<Json>, Context), Refusal>)
    requires WellFormed(cfg.forward) && ctx0 == Context(false, false, "", "", false, ctx0.reverse)
    requires forall e | e in items :: AsObject(e).Some?
    ensures r.Ok? <==> ItemsOk(items, cfg)
    ensures r.Ok? ==>
              && r.value.0 == ItemsAfter(items, cfg)
              && r.value.1 == if SomeChanged(items, cfg) then Recorded(items, cfg, ctx0) else ctx0
  {
    hide ItemSent, WellFormed, ItemsOk, ItemsAfter, ItemAfter, SomeChanged, FirstNames;
    var requests := items;
    var ctx := ctx0;
    var i := 0;
    NoItems(cfg);
    while i < |items|
      invariant i <= |items| == |requests|
      invariant ItemsOk(items[..i], cfg) && requests[..i] == ItemsAfter(items[..i], cfg) && requests[i..] == items[i..]
      invariant ctx == if SomeChanged(items[..i], cfg) then Recorded(items[..i], cfg, ctx0) else ctx0
      invariant ctx.logical == "" <==> !SomeChanged(items[..i], cfg)
    {
      var sent := RewriteItem(items[i], cfg);
      if sent.Err? {
        OneBadItem(items, i, cfg);
        return Err(sent.error);
      }
      ItemsExtend(items, i, cfg);
      NamesExtend(items, i, cfg);
      ItemAfterIs(items[i], cfg);
      Replaced(requests, items, i, ItemAfter(items[i], cfg));
      if sent.value.Some? {
        ItemNamed(items[i], cfg);
        requests := requests[i := sent.value.value.0];
        ctx := ctx.(rewritten := true, normalize := true);
        if ctx.logical == "" {
          ctx := ctx.(logical := sent.value.value.1, upstream := sent.value.value.2);
        }
      }
      i := i + 1;
    }
    assert items[..i] == items;
    return Ok((requests, ctx));
  }

  lemma {:induction false} ItemNamed(item: Json, cfg: Config)
    requires WellFormed(cfg.forward) && AsObject(item).Some? && ItemSent(item, cfg).Ok?
    ensures ItemSent(item, cfg).value.Some? ==> ItemSent(item, cfg).value.value.1 != ""
  {
    hide ItemSent, WellFormed;
    ItemKeepsTheRest(item, cfg);
    BlankHasNoTarget(cfg.forward);
  }

  lemma {:induction false} BlankHasNoTarget(forward: Table)
    requires WellFormed(forward)
    ensures Target(forward, "") == None
  {
    hide TrimSpace, LooksProviderSpecific;
    forall l | l in forward ensures l != "" {
      assert EntryOk(l, forward[l]);
    }
  }

  lemma {:induction false} NamesExtend(items: seq<Json>, i: nat, cfg: Config)
    requires i < |items| && ItemsOk(items[..i + 1], cfg)
    ensures ItemsOk(items[..i], cfg)
    ensures FirstNames(items[..i + 1], cfg) ==
            if SomeChanged(items[..i], cfg) then FirstNames(items[..i], cfg)
            else match ItemSent(items[i], cfg).value case Some(t) => (t.1, t.2) case None => ("", "")
    decreases i
  {
    hide ItemSent;
    var more, less := items[..i + 1], items[..i];
    assert forall k | 0 <= k < i :: less[k] == more[k];
    if i > 0 && ItemSent(items[0], cfg).value.None? {
      var rest := items[1..];
      assert more[1..] == rest[..i] && less[1..] == rest[..i - 1] && rest[i - 1] == items[i];
      ItemsOkTail(more, cfg);
      NamesExtend(rest, i - 1, cfg);
      ChangedTail(less, cfg);
    }
  }

  lemma {:induction false} ChangedTail(items: seq<Json>, cfg: Config)
    requires items != [] && ItemsOk(items, cfg) && ItemSent(items[0], cfg).value.None?
    ensures ItemsOk(items[1..], cfg) && (SomeChanged(items[1..], cfg) <==> SomeChanged(items, cfg))
  {
    hide ItemSent;
    ItemsOkTail(items, cfg);
    if SomeChanged(items, cfg) {
      var i :| 0 <= i < |items| && ItemSent(items[i], cfg).value.Some?;
      assert items[1..][i - 1] == items[i];
    }
    if SomeChanged(items[1..], cfg) {
      var i :| 0 <= i < |items[1..]| && ItemSent(items[1..][i], cfg).value.Some?;
      assert items[i + 1] == items[1..][i];
    }
  }

  lemma {:induction false} Replaced(xs: seq<Json>, items: seq<Json>, i: nat, x: Json)
    requires i < |xs| == |items| && xs[i..] == items[i..]
    ensures xs[i := x][..i + 1] == xs[..i] + [x] && xs[i := x][i + 1..] == items[i + 1..]
    ensures x == items[i] ==> xs[i := x] == xs
  {
    assert xs[i] == xs[i..][0] == items[i];
    assert xs[i := x][i + 1..] == xs[i..][1..] == items[i..][1..];
  }

  lemma {:induction false} NoItems(cfg: Config)
    ensures ItemsOk([], cfg) && ItemsAfter([], cfg) == [] && !SomeChanged([], cfg)
  {
  }

  lemma {:induction false} OneBadItem(items: seq<Json>, i: nat, cfg: Config)
    requires i < |items| && AsObject(items[i]).Some? && ItemSent(items[i], cfg).Err?
    ensures !ItemsOk(items, cfg)
  {
    hide ItemSent;
  }

  lemma {:induction false} ItemAfterIs(item: Json, cfg: Config)
    requires AsObject(item).Some? && ItemSent(item, cfg).Ok?
    ensures ItemAfter(item, cfg) == match ItemSent(item, cfg).value case Some(t) => t.0 case None => item
  {
    hide ItemSent;
  }

  /** A batch in which every item can be sent is re-encoded exactly if some item is rewritten,
      and then each item is there, in its place, rewritten or as it came. */
  lemma {:induction false} BatchRewrittenIff(
      obj: Members, items: seq<Json>, cfg: Config, r: Result<(Upstream, Context), Refusal>)
    requires Injective(cfg.forward) && BatchSent(Obj(obj), cfg, r) && REQUESTS in obj && obj[REQUESTS] == Arr(items)
    ensures r.Ok? <==> forall i | 0 <= i < |items| :: AsObject(items[i]).Some? && ItemSent(items[i], cfg).Ok?
    ensures r.Ok? ==>
              && (r.value.0.Encoded? <==> exists i :: 0 <= i < |items| && ItemSent(items[i], cfg).value.Some?)
              && r.value.1.rewritten == r.value.1.normalize == r.value.0.Encoded?
              && (r.value.0.Encoded? ==>
                    && (forall k | k != REQUESTS ::
                          (k in r.value.0.obj <==> k in obj) && (k in obj ==> r.value.0.obj[k] == obj[k]))
                    && REQUESTS in r.value.0.obj && r.value.0.obj[REQUESTS].Arr?
                    && var out := r.value.0.obj[REQUESTS].items;
                       && |out| == |items|
                       && forall i | 0 <= i < |items| ::
                            match ItemSent(items[i], cfg).value
                            case Some(t) => out[i] == t.0
                            case None => out[i] == items[i])
  {
    hide Injective, ItemSent, ReverseOf, FirstNames;
    assert AsArray(obj[REQUESTS]) == Some(items);
  }

  /** A batch without requests goes out as it came; requests that are no list, or a body that
      is no object, are refused. */
  lemma {:induction false} OddBatches(obj: Members, other: Json, cfg: Config, r: Result<(Upstream, Context), Refusal>)
    requires Injective(cfg.forward)
    ensures "requests" !in obj && BatchSent(Obj(obj), cfg, r) ==> r == Ok((AsSent, Untouched(cfg)))
    ensures "requests" in obj && !obj["requests"].Arr? && !obj["requests"].Null? && BatchSent(Obj(obj), cfg, r) ==>
              r == Err(RequestsNotArray)
    ensures !other.Obj? && !other.Null? && BatchSent(other, cfg, r) ==> r == Err(NotJson)
  {
    hide Injective, ReverseOf;
  }

  method RewriteBatch(j: Json, cfg: Config, ctx: Context) returns (r: Result<(Upstream, Context), Refusal>)
    requires WellFormed(cfg.forward) && Injective(cfg.forward)
    requires ctx == Context(false, false, "", "", false, ReverseOf(cfg.forward))
    ensures BatchSent(j, cfg, r)
  {
    hide ItemSent, WellFormed, Injective, ReverseOf, ItemsAfter, SomeChanged, FirstNames;
    if AsObject(j).None? {
      return Err(NotJson);
    }
    var obj := AsObject(j).value;
    if REQUESTS !in obj {
      return Ok((AsSent, ctx));
    }
    if AsArray(obj[REQUESTS]).None? {
      return Err(RequestsNotArray);
    }
    var items := AsArray(obj[REQUESTS]).value;
    if exists e | e in items :: AsObject(e).None? {
      return Err(RequestsNotArray);
    }
    var done := RewriteItems(items, cfg, ctx);
    if done.Err? {
      return Err(done.error);
    }
    var (requests, after) := done.value;
    return Ok((if after.rewritten then Encoded(obj[REQUESTS := Arr(requests)]) else AsSent, after));
  }

  lemma {:induction false} ItemsExtend(items: seq<Json>, i: nat, cfg: Config)
    requires i < |items| && ItemsOk(items[..i], cfg) && AsObject(items[i]).Some? && ItemSent(items[i], cfg).Ok?
    ensures ItemsOk(items[..i + 1], cfg)
    ensures ItemsAfter(items[..i + 1], cfg) == ItemsAfter(items[..i], cfg) + [ItemAfter(items[i], cfg)]
    ensures SomeChanged(items[..i + 1], cfg) == (SomeChanged(items[..i], cfg) || ItemSent(items[i], cfg).value.Some?)
  {
    hide ItemSent, ItemAfter;
    assert items[..i + 1] == items[..i] + [items[i]];
    assert items[..i + 1][i] == items[i];
    assert forall k | 0 <= k < i :: items[..i + 1][k] == items[..i][k];
  }
}

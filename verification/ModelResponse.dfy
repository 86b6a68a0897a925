/** Normalizing a response tree: the model named at the top, and at every place reached
    through `message` and `result`, goes back to the name the client asked for. */
module ModelResponse {
  import opened Prelude
  import opened Json
  import opened ModelAlias
  import opened Text

  const MODEL := "model"
  const MESSAGE := "message"
  const RESULT := "result"

  /** A string the table knows becomes what it stands for; null reads as "". */
  function Renamed(v: Json, reverse: Table): Json {
    match AsString(v)
    case Some(s) => if s in reverse then Str(reverse[s]) else v
    case None => v
  }

  predicate Knows(m: Members, reverse: Table) {
    MODEL in m && AsString(m[MODEL]).Some? && AsString(m[MODEL]).value in reverse
  }

  function Normalize(j: Json, reverse: Table): Json {
    if !j.Obj? then j
    else
      var m := j.members;
      var m1 := if MODEL in m then m[MODEL := Renamed(m[MODEL], reverse)] else m;
      var m2 := if MESSAGE in m then m1[MESSAGE := Normalize(m[MESSAGE], reverse)] else m1;
      Obj(if RESULT in m then m2[RESULT := Normalize(m[RESULT], reverse)] else m2)
  }

  /** Whether some model in the tree is renamed, which decides if the bytes are re-encoded. */
  predicate Touches(j: Json, reverse: Table) {
    j.Obj? &&
    (Knows(j.members, reverse)
     || (MESSAGE in j.members && Touches(j.members[MESSAGE], reverse))
     || (RESULT in j.members && Touches(j.members[RESULT], reverse)))
  }

  /** The rewriter in the order the source takes: model, message, result. */
  method RewriteObjectModels(j: Json, reverse: Table) returns (out: Members, changed: bool)
    requires j.Obj?
    ensures Obj(out) == Normalize(j, reverse) && changed == Touches(j, reverse)
    decreases j
  {
    out := j.members;
    changed := false;
    if MODEL in out && AsString(out[MODEL]).Some? && AsString(out[MODEL]).value in reverse {
      out := out[MODEL := Str(reverse[AsString(out[MODEL]).value])];
      changed := true;
    } else {
      assert MODEL in out ==> out[MODEL := Renamed(out[MODEL], reverse)] == out;
    }
    if MESSAGE in out {
      if out[MESSAGE].Obj? {
        assert out[MESSAGE] == j.members[MESSAGE];
        var msg, hit := RewriteObjectModels(j.members[MESSAGE], reverse);
        if hit {
          out := out[MESSAGE := Obj(msg)];
          changed := true;
        } else {
          UntouchedStays(j.members[MESSAGE], reverse);
          assert out[MESSAGE := Normalize(j.members[MESSAGE], reverse)] == out;
        }
      } else {
        assert out[MESSAGE := out[MESSAGE]] == out;
      }
    }
    if RESULT in out {
      if out[RESULT].Obj? {
        assert out[RESULT] == j.members[RESULT];
        var res, hit := RewriteObjectModels(j.members[RESULT], reverse);
        if hit {
          out := out[RESULT := Obj(res)];
          changed := true;
        } else {
          UntouchedStays(j.members[RESULT], reverse);
          assert out[RESULT := Normalize(j.members[RESULT], reverse)] == out;
        }
      } else {
        assert out[RESULT := out[RESULT]] == out;
      }
    }
  }

  lemma {:induction false} UntouchedStays(j: Json, reverse: Table)
    requires !Touches(j, reverse)
    ensures Normalize(j, reverse) == j
  {
    if j.Obj? {
      var m := j.members;
      if MESSAGE in m {
        UntouchedStays(m[MESSAGE], reverse);
      }
      if RESULT in m {
        UntouchedStays(m[RESULT], reverse);
      }
      assert MODEL in m ==> m[MODEL := m[MODEL]] == m;
      assert MESSAGE in m ==> m[MESSAGE := m[MESSAGE]] == m;
      assert RESULT in m ==> m[RESULT := m[RESULT]] == m;
    }
  }

  // ----- What normalizing does, place by place -----

  datatype Hop = Message | Result

  function NameOf(h: Hop): string {
    if h == Message then MESSAGE else RESULT
  }

  /** The object reached from `j` along `path`, if there is one. */
  function Reach(j: Json, path: seq<Hop>): Option<Members>
    decreases |path|
  {
    if !j.Obj? then None
    else if path == [] then Some(j.members)
    else if NameOf(path[0]) in j.members then Reach(j.members[NameOf(path[0])], path[1..])
    else None
  }

  lemma {:induction false} NormalizeHere(m: Members, reverse: Table, k: string)
    ensures var n := Normalize(Obj(m), reverse).members;
            && (k in n <==> k in m)
            && (k in m ==> n[k] == if k == MODEL then Renamed(m[k], reverse)
                                   else if k == MESSAGE || k == RESULT then Normalize(m[k], reverse)
                                   else m[k])
  {
    hide Renamed;
  }

  /** The same objects are reached; each keeps every member but its model, its message
      and its result, and a message or a result that is no object stays too. */
  lemma {:induction false} NormalizeAlong(j: Json, reverse: Table, path: seq<Hop>)
    ensures Reach(Normalize(j, reverse), path).Some? <==> Reach(j, path).Some?
    ensures Reach(j, path).Some? ==>
              var m, n := Reach(j, path).value, Reach(Normalize(j, reverse), path).value;
              && n.Keys == m.Keys
              && (forall k | k in m && k !in {MODEL, MESSAGE, RESULT} :: n[k] == m[k])
              && (forall k | k in m && k in {MESSAGE, RESULT} && !m[k].Obj? :: n[k] == m[k])
              && (MODEL in m ==> n[MODEL] == Renamed(m[MODEL], reverse))
    decreases |path|
  {
    hide Renamed;
    if j.Obj? {
      forall k { NormalizeHere(j.members, reverse, k); }
      if path != [] && NameOf(path[0]) in j.members {
        NormalizeAlong(j.members[NameOf(path[0])], reverse, path[1..]);
      }
    }
  }

  lemma {:induction false} TouchesSomewhere(j: Json, reverse: Table) returns (path: seq<Hop>)
    requires Touches(j, reverse)
    ensures Reach(j, path).Some? && Knows(Reach(j, path).value, reverse)
  {
    hide Knows;
    if Knows(j.members, reverse) {
      path := [];
    } else if MESSAGE in j.members && Touches(j.members[MESSAGE], reverse) {
      var rest := TouchesSomewhere(j.members[MESSAGE], reverse);
      path := [Message] + rest;
      assert path[1..] == rest;
    } else {
      var rest := TouchesSomewhere(j.members[RESULT], reverse);
      path := [Result] + rest;
      assert path[1..] == rest;
    }
  }

  lemma {:induction false} TouchedFrom(j: Json, reverse: Table, path: seq<Hop>)
    requires Reach(j, path).Some? && Knows(Reach(j, path).value, reverse)
    ensures Touches(j, reverse)
    decreases |path|
  {
    hide Knows;
    if path != [] {
      TouchedFrom(j.members[NameOf(path[0])], reverse, path[1..]);
    }
  }

  ghost predicate KnownSomewhere(j: Json, reverse: Table) {
    exists path :: Reach(j, path).Some? && Knows(Reach(j, path).value, reverse)
  }

  /** A response is re-encoded exactly when some reachable object names a known model. */
  lemma {:induction false} ReencodedIffKnown(j: Json, reverse: Table)
    ensures Touches(j, reverse) <==> KnownSomewhere(j, reverse)
  {
    if Touches(j, reverse) {
      var path := TouchesSomewhere(j, reverse);
    }
    if KnownSomewhere(j, reverse) {
      var path :| Reach(j, path).Some? && Knows(Reach(j, path).value, reverse);
      TouchedFrom(j, reverse, path);
    }
  }

  // ----- Undoing the request's rewrite -----

  /** For any accepted table and any request sent as `p` instead of `model`: wherever the
      response names `p` it names `model` again, even if an explicit alias and the
      default share `p`; any other aliased model gets its own logical name back, and
      what no alias explains is left alone. */
  lemma {:induction false} ResponseNamesRequestedModel(forward: Table, model: string, response: Json, path: seq<Hop>)
    requires Unambiguous(forward) && Target(forward, model).Some?
    requires Reach(response, path).Some? && MODEL in Reach(response, path).value
    ensures var p, rev := Target(forward, model).value, ReverseOf(forward);
            var back := Normalize(response, WithReverse(rev, p, model));
            var before := Reach(response, path).value[MODEL];
            && Reach(back, path).Some? && MODEL in Reach(back, path).value
            && var after := Reach(back, path).value[MODEL];
               && (before == Str(p) ==> after == Str(model))
               && (forall l | l in forward && l != DEFAULT_KEY && forward[l] != p && before == Str(forward[l]) ::
                     after == Str(l))
               && (before != Str(p) && (forall l | l in forward && l != DEFAULT_KEY :: before != Str(forward[l])) ==>
                     after == before)
  {
    hide Normalize, Target, Reach, Renamed, ReverseOf, Injective;
    var p, rev := Target(forward, model).value, ReverseOf(forward);
    NormalizeAlong(response, WithReverse(rev, p, model), path);
    RenamedBack(forward, model, Reach(response, path).value[MODEL]);
  }

  lemma {:induction false} RenamedBack(forward: Table, model: string, v: Json)
    requires Unambiguous(forward) && Target(forward, model).Some?
    ensures var p := Target(forward, model).value;
            var after := Renamed(v, WithReverse(ReverseOf(forward), p, model));
            && (v == Str(p) ==> after == Str(model))
            && (forall l | l in forward && l != DEFAULT_KEY && forward[l] != p && v == Str(forward[l]) ::
                  after == Str(l))
            && (v != Str(p) && (forall l | l in forward && l != DEFAULT_KEY :: v != Str(forward[l])) ==> after == v)
  {
    hide Target, ReverseOf, Injective;
    NoBlankTarget(forward);
    TargetNotBlank(forward, model);
    ReverseIs(forward);
  }

  lemma {:induction false} TargetNotBlank(forward: Table, model: string)
    requires Unambiguous(forward) && Target(forward, model).Some?
    ensures Target(forward, model).value != ""
  {
    hide IsClaudeModel;
  }

  // ----- Normalizing twice -----

  /** No target of the table is itself renamed to something else. */
  predicate Settled(reverse: Table) {
    forall q | q in reverse :: reverse[q] in reverse ==> reverse[reverse[q]] == reverse[q]
  }

  lemma {:induction false} RenamedTwice(v: Json, reverse: Table)
    requires Settled(reverse)
    ensures Renamed(Renamed(v, reverse), reverse) == Renamed(v, reverse)
  {
  }

  lemma {:induction false} NormalizeTwice(j: Json, reverse: Table)
    requires Settled(reverse)
    ensures Normalize(Normalize(j, reverse), reverse) == Normalize(j, reverse)
  {
    hide Renamed, Settled;
    if j.Obj? {
      var m := j.members;
      var once, twice := Normalize(j, reverse).members, Normalize(Normalize(j, reverse), reverse).members;
      forall k ensures (k in twice <==> k in once) && (k in once ==> twice[k] == once[k]) {
        NormalizeHere(m, reverse, k);
        NormalizeHere(once, reverse, k);
        if k in m {
          RenamedTwice(m[k], reverse);
          if k == MESSAGE || k == RESULT {
            NormalizeTwice(m[k], reverse);
          }
        }
      }
      assert twice == once;
    }
  }

  /** A second normalization changes nothing, on any response, exactly when no alias's
      logical name is the provider model of another. */
  lemma {:induction false} TwiceIsOnceIffSettled(reverse: Table)
    ensures Settled(reverse) <==> forall j :: Normalize(Normalize(j, reverse), reverse) == Normalize(j, reverse)
  {
    hide Normalize, Renamed;
    if Settled(reverse) {
      forall j ensures Normalize(Normalize(j, reverse), reverse) == Normalize(j, reverse) {
        NormalizeTwice(j, reverse);
      }
    } else {
      var q :| q in reverse && reverse[q] in reverse && reverse[reverse[q]] != reverse[q];
      ChainMovesOn(reverse, q);
    }
  }

  lemma {:induction false} ChainMovesOn(reverse: Table, q: string)
    requires q in reverse && reverse[q] in reverse && reverse[reverse[q]] != reverse[q]
    ensures var j := Obj(map[MODEL := Str(q)]); Normalize(Normalize(j, reverse), reverse) != Normalize(j, reverse)
  {
    var j := Obj(map[MODEL := Str(q)]);
    var once := Normalize(j, reverse);
    assert once.members[MODEL] == Str(reverse[q]);
    assert Normalize(once, reverse).members[MODEL] == Str(reverse[reverse[q]]);
  }

  /** An accepted table in which a second normalization goes on to another name. */
  lemma {:induction false} ChainedAliasesMoveTwice()
    ensures var forward := map["claude-a" := "claude-b", "claude-b" := "claude-c"];
            && Acceptable(forward) && WellFormed(forward)
            && var rev := ReverseOf(forward);
               && Normalize(Obj(map[MODEL := Str("claude-c")]), rev) == Obj(map[MODEL := Str("claude-b")])
               && Normalize(Obj(map[MODEL := Str("claude-b")]), rev) == Obj(map[MODEL := Str("claude-a")])
  {
    hide TrimSpace, LooksProviderSpecific, ReverseOf, Normalize, Acceptable, EntryOk;
    var forward := map["claude-a" := "claude-b", "claude-b" := "claude-c"];
    ChainAccepted(forward);
    ReverseIs(forward);
    assert "claude-a" in forward && "claude-b" in forward;
    RenameOnly("claude-c", ReverseOf(forward));
    RenameOnly("claude-b", ReverseOf(forward));
  }

  lemma {:induction false} ChainAccepted(forward: Table)
    requires forward == map["claude-a" := "claude-b", "claude-b" := "claude-c"]
    ensures Acceptable(forward) && WellFormed(forward)
  {
    hide TrimSpace, LooksProviderSpecific;
    PlainNameFits("claude-a");
    PlainNameFits("claude-b");
    PlainNameFits("claude-c");
  }

  lemma {:induction false} RenameOnly(model: string, reverse: Table)
    requires model in reverse
    ensures Normalize(Obj(map[MODEL := Str(model)]), reverse) == Obj(map[MODEL := Str(reverse[model])])
  {
    var m: Members := map[MODEL := Str(model)];
    assert m[MODEL := Str(reverse[model])] == map[MODEL := Str(reverse[model])];
  }
}

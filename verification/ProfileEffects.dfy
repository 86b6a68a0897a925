/** What each writer of profiles.json does to the file, field by field: when it goes through,
    what the file holds then, and what a launch makes of it. */
module ProfileEffects {
  import opened Prelude
  import opened Text
  import opened ModelAlias
  import opened Profiles
  import opened ProfileEdits
  import opened SharedProfiles

  /** A profile as it reads: the same in every field, its aliases trimmed. */
  ghost predicate ReadsAs(now: Profile, was: Profile) {
    && now.provider == was.provider && now.baseURL == was.baseURL && now.auth == was.auth
    && now.headers == was.headers && now.egress == was.egress && Cleans(now.aliases, was.aliases)
  }

  /** Every profile but those named is there as it was, and no other has come. */
  ghost predicate KeepsOthers(was: Disk, now: Disk, names: set<string>) {
    && now.Raw?
    && forall n | n !in names ::
         && (n in now.profiles <==> was.Raw? && n in was.profiles)
         && (n in now.profiles ==> ReadsAs(now.profiles[n], was.profiles[n]))
  }

  function DefaultOf(d: Disk): string {
    if d.Raw? && d.dflt != "" then d.dflt else INHERIT_ENV
  }

  predicate Has(d: Disk, name: string) {
    d.Raw? && name in d.profiles
  }

  // ----- Loading -----

  lemma {:induction false} LoadedFields(d: Disk, urls: Urls)
    requires Load(d, urls).Ok?
    ensures Load(d, urls).value.Some? <==> d.Raw?
    ensures d.Raw? || d == Missing
    ensures d.Raw? ==>
              var f := Load(d, urls).value.value;
              && Valid(f, urls) && f.dflt == DefaultOf(d) && f.dflt != "" && f.profiles.Keys == d.profiles.Keys
              && forall n | n in d.profiles :: ReadsAs(f.profiles[n], d.profiles[n])
  {
    hide Valid, Coerces, Coerced, Cleans;
    if d.Raw? {
      var f := Load(d, urls).value.value;
      forall n | n in d.profiles ensures ReadsAs(f.profiles[n], d.profiles[n]) {
        assert f.profiles[n] == Parsed(d.profiles[n]);
        CoercedCleans(d.profiles[n].aliases);
      }
    }
  }

  /** Of a file that loads, a profile is selected by its name, and by no name at all if it
      is the default. */
  lemma {:induction false} StoredIsSelected(d: Disk, name: string, urls: Urls)
    requires Load(d, urls).Ok? && Has(d, name) && TrimSpace(name) == name && name != ""
    ensures Load(d, urls).value.Some? && name in Load(d, urls).value.value.profiles
    ensures ReadsAs(Load(d, urls).value.value.profiles[name], d.profiles[name])
    ensures Selected(Load(d, urls).value, name) == Chosen(name)
    ensures DefaultOf(d) == name ==> Selected(Load(d, urls).value, "") == Chosen(name)
  {
    hide TrimSpace, Load, ReadsAs, ProfileOk, Selected;
    LoadedFields(d, urls);
    var f := Load(d, urls).value.value;
    NotReserved(name, f.profiles[name], urls);
    ExplicitNeverInherits(Some(f), name);
    ResolvedSelects(f, urls);
  }

  // ----- Files that are valid -----

  lemma {:induction false} PutValid(f: File, dflt: string, name: string, p: Profile, urls: Urls)
    requires Valid(f, urls) && TrimSpace(name) == name && (dflt == f.dflt || dflt == name)
    ensures Valid(File(dflt, f.profiles[name := p]), urls) <==> ProfileOk(name, p, urls)
  {
    hide ProfileOk, TrimSpace;
    var g := File(dflt, f.profiles[name := p]);
    assert name in g.profiles && g.profiles[name] == p;
    assert forall n | n in f.profiles && n != name :: n in g.profiles && g.profiles[n] == f.profiles[n];
  }

  lemma {:induction false} FirstFileValid(dflt: string, urls: Urls)
    requires dflt in {OFFICIAL, INHERIT_ENV}
    ensures Valid(File(dflt, if dflt == OFFICIAL then map[OFFICIAL := OFFICIAL_PROFILE] else map[]), urls)
  {
    hide ProfileOk, TrimSpace;
    OfficialOk(urls);
  }

  // ----- Adding -----

  predicate AddAllowed(d: Disk, req: AddRequest, urls: Urls) {
    && req.name != "" && TrimSpace(req.name) == req.name && TrimSpace(req.profile.baseURL) != ""
    && (TrimSpace(req.profile.egress.url) == "" || ToLower(TrimSpace(req.profile.egress.mode)) in {"", "http"})
    && !Has(d, req.name) && !(d == Missing && req.name == "official")
    && ProfileOk(req.name, req.profile, urls)
  }

  lemma {:induction false} AddCheckedIff(req: AddRequest)
    ensures AddChecked(req).None? <==>
            && req.name != "" && TrimSpace(req.name) == req.name && TrimSpace(req.profile.baseURL) != ""
            && (TrimSpace(req.profile.egress.url) == "" || ToLower(TrimSpace(req.profile.egress.mode)) in {"", "http"})
  {
    hide TrimSpace, ToLower;
  }

  /** When an add goes through, and what the file holds then: the profile as it was given,
      the others as they were, and where there was no file the official profile alone. */
  lemma {:induction false} AddTakesEffect(d: Disk, req: AddRequest, urls: Urls)
    requires Load(d, urls).Ok?
    ensures Outcome(Add(req), d, urls).Ok? <==> AddAllowed(d, req, urls)
    ensures Outcome(Add(req), d, urls).Ok? ==>
              var e := Outcome(Add(req), d, urls).value;
              && Has(e, req.name) && e.profiles[req.name] == req.profile
              && KeepsOthers(d, e, {req.name} + if d.Raw? then {} else {"official"})
              && (!d.Raw? ==>
                    Has(e, "official")
                    && e.profiles["official"] == Profile("anthropic", "", None, map[], map[], Egress("inherit", "")))
              && e.dflt == if req.setDefault then req.name else if d.Raw? then DefaultOf(d) else "official"
  {
    hide ProfileOk, TrimSpace, ToLower, Valid, Load, ReadsAs, AddChecked;
    LoadedFields(d, urls);
    FirstFileValid(OFFICIAL, urls);
    var f := Load(d, urls).value;
    var base := if f.Some? then f.value else File(OFFICIAL, map[OFFICIAL := OFFICIAL_PROFILE]);
    AddCheckedIff(req);
    if TrimSpace(req.name) == req.name {
      PutValid(base, if req.setDefault then req.name else base.dflt, req.name, req.profile, urls);
    }
  }

  /** What a launch finds after an add: the profile, reading as it was given, under its name,
      and without a name as well if it was made the default. */
  ghost predicate AddedReads(was: Disk, now: Disk, req: AddRequest, urls: Urls)
    requires Load(now, urls).Ok?
  {
    var f := Load(now, urls).value;
    && f.Some? && req.name in f.value.profiles && ReadsAs(f.value.profiles[req.name], req.profile)
    && Selected(f, req.name) == Chosen(req.name)
    && (req.setDefault ==> Selected(f, "") == Chosen(req.name))
    && (!req.setDefault ==> f.value.dflt == if was.Raw? then DefaultOf(was) else "official")
    && KeepsOthers(was, now, {req.name} + if was.Raw? then {} else {"official"})
  }

  lemma {:induction false} AddIsRead(d: Disk, req: AddRequest, urls: Urls)
    requires Load(d, urls).Ok? && Outcome(Add(req), d, urls).Ok?
    requires Load(Outcome(Add(req), d, urls).value, urls).Ok?
    ensures AddedReads(d, Outcome(Add(req), d, urls).value, req, urls)
  {
    hide Outcome, Load, Selected, KeepsOthers, TrimSpace, ProfileOk;
    AddTakesEffect(d, req, urls);
    var e := Outcome(Add(req), d, urls).value;
    LoadedFields(d, urls);
    LoadedFields(e, urls);
    StoredIsSelected(e, req.name, urls);
    OfficialIsNotBlank();
  }

  lemma {:induction false} OfficialIsNotBlank()
    ensures "official" != "" && INHERIT_ENV != ""
  {
  }

  /** The key a command line gives, and where it goes. */
  predicate CliAuth(o: Flags, a: Option<Auth>) {
    && a.Some? && a.value.mode == Given(o.authMode)
    && match o.key
       case NoKeyFlag => a.value.key == "" && a.value.keyEnv == ""
       case KeyFlag(k) => a.value.key == k && a.value.keyEnv == ""
       case KeyEnvFlag(n) => a.value.key == "" && a.value.keyEnv == n
       case KeyStdin(read) => read.Some? && a.value.key == read.value && a.value.keyEnv == ""
  }

  /** The profile the flags of an add describe. */
  predicate SaysFlags(o: Flags, p: Profile) {
    && p.provider == Given(o.provider) && p.baseURL == Given(o.baseURL) && CliAuth(o, p.auth)
    && p.aliases == GivenTable(o.aliases) && p.headers == GivenTable(o.headers)
    && p.egress.mode == Given(o.egressMode) && p.egress.url == Given(o.egressURL)
  }

  predicate CliAddAllowed(d: Disk, o: Flags) {
    var mode, auth := ToLower(TrimSpace(Given(o.egressMode))), ToLower(TrimSpace(Given(o.authMode)));
    && o.name != "" && TrimSpace(o.name) == o.name && PairsTable(GivenTable(o.aliases))
    && TrimSpace(Given(o.baseURL)) != "" && auth !in {"", "passthrough"}
    && (auth in {"ccwrap_bearer", "ccwrap_x_api_key"} ==> !o.key.NoKeyFlag?)
    && (mode in {"http", "socks5", "socks5h"} ==> TrimSpace(Given(o.egressURL)) != "")
    && (mode in {"inherit", "direct"} ==> TrimSpace(Given(o.egressURL)) == "")
    && !Has(d, o.name) && !(o.key.KeyStdin? && o.key.read.None?)
  }

  /** The same of the command line's add, which starts from an empty file. */
  lemma {:induction false} CliAddTakesEffect(d: Disk, o: Flags, urls: Urls)
    requires Load(d, urls).Ok?
    ensures Outcome(CliAdd(o), d, urls).Ok? ==> CliAddAllowed(d, o)
    ensures CliAddAllowed(d, o) && !Outcome(CliAdd(o), d, urls).Ok? ==>
              forall p | SaysFlags(o, p) :: !ProfileOk(o.name, p, urls)
    ensures Outcome(CliAdd(o), d, urls).Ok? ==>
              var e := Outcome(CliAdd(o), d, urls).value;
              && Has(e, o.name) && SaysFlags(o, e.profiles[o.name])
              && KeepsOthers(d, e, {o.name})
              && e.dflt == if o.setDefault then o.name else DefaultOf(d)
  {
    hide ProfileOk, TrimSpace, ToLower, Valid, Load, ReadsAs, PairsTable, SaysFlags;
    LoadedFields(d, urls);
    FirstFileValid(INHERIT_ENV, urls);
    BlankLowers(Given(o.authMode));
    var f := Load(d, urls).value;
    var base := if f.Some? then f.value else File(INHERIT_ENV, map[]);
    if CliAdded(f, o).Ok? {
      var p := CliAdded(f, o).value.profiles[o.name];
      CliAddedSays(f, o);
      PutValid(base, if o.setDefault then o.name else base.dflt, o.name, p, urls);
      forall q | SaysFlags(o, q) ensures q == p {
        FlagsSayOne(o, p, q);
      }
    }
  }

  lemma {:induction false} FlagsSayOne(o: Flags, p: Profile, q: Profile)
    requires SaysFlags(o, p) && SaysFlags(o, q)
    ensures p == q
  {
  }

  lemma {:induction false} CliAddedSays(f: Option<File>, o: Flags)
    requires CliAdded(f, o).Ok?
    ensures o.name in CliAdded(f, o).value.profiles && SaysFlags(o, CliAdded(f, o).value.profiles[o.name])
  {
    hide AddFlagsOk;
  }

  lemma {:induction false} BlankLowers(s: string)
    ensures ToLower(TrimSpace(s)) == "" <==> TrimSpace(s) == ""
  {
    hide TrimSpace;
  }

  // ----- Editing -----

  /** When an edit goes through, and that it changes the profile as the request says, the
      default if asked to, and nothing else. */
  lemma {:induction false} EditTakesEffect(d: Disk, req: EditRequest, urls: Urls)
    requires Load(d, urls).Ok?
    ensures var r := Outcome(Edit(req), d, urls);
            && (r.Ok? ==> Has(d, req.name) && TrimSpace(req.name) == req.name != "")
            && (Has(d, req.name) && TrimSpace(req.name) == req.name != "" ==>
                  var p := Load(d, urls).value.value.profiles[req.name];
                  && (r.Ok? <==> EditedProfile(p, req).Ok? && ProfileOk(req.name, EditedProfile(p, req).value, urls))
                  && (r.Ok? ==>
                        && Has(r.value, req.name) && KeepsOthers(d, r.value, {req.name})
                        && EditKeeps(p, req, r.value.profiles[req.name]) && EditSets(req, r.value.profiles[req.name])
                        && r.value.dflt == if req.setDefault then req.name else DefaultOf(d)))
  {
    hide ProfileOk, TrimSpace, Valid, Load, ReadsAs, EditedProfile, EditKeeps, EditSets;
    LoadedFields(d, urls);
    if Has(d, req.name) && TrimSpace(req.name) == req.name != "" {
      var f := Load(d, urls).value.value;
      var p := f.profiles[req.name];
      EditDoes(p, req);
      if EditedProfile(p, req).Ok? {
        PutValid(f, if req.setDefault then req.name else f.dflt, req.name, EditedProfile(p, req).value, urls);
      }
    }
  }

  lemma {:induction false} CliEditTakesEffect(d: Disk, o: Flags, urls: Urls)
    requires Load(d, urls).Ok?
    ensures var r := Outcome(CliEdit(o), d, urls);
            && (r.Ok? ==> Has(d, o.name) && FlagsOk(o))
            && (Has(d, o.name) && FlagsOk(o) ==>
                  var p := Load(d, urls).value.value.profiles[o.name];
                  && (r.Ok? <==> CliEditedProfile(p, o).Ok? && ProfileOk(o.name, CliEditedProfile(p, o).value, urls))
                  && (r.Ok? ==>
                        && Has(r.value, o.name) && KeepsOthers(d, r.value, {o.name})
                        && FlagsKeep(p, o, r.value.profiles[o.name]) && FlagsSet(o, r.value.profiles[o.name])
                        && MergedInto(r.value.profiles[o.name].aliases, p.aliases, GivenTable(o.aliases))
                        && MergedInto(r.value.profiles[o.name].headers, p.headers, GivenTable(o.headers))
                        && r.value.dflt == if o.setDefault then o.name else DefaultOf(d)))
  {
    hide ProfileOk, TrimSpace, Valid, Load, ReadsAs, CliEditedProfile, FlagsKeep, FlagsSet, MergedInto, PairsTable,
      Lowered;
    LoadedFields(d, urls);
    if Has(d, o.name) && FlagsOk(o) {
      var f := Load(d, urls).value.value;
      var p := f.profiles[o.name];
      CliEditDoes(p, o);
      if CliEditedProfile(p, o).Ok? {
        PutValid(f, if o.setDefault then o.name else f.dflt, o.name, CliEditedProfile(p, o).value, urls);
      }
    }
  }

  /** The flags both commands take: a trimmed name, alias pairs, and a proxy URL exactly where
      the mode needs or allows one. */
  lemma {:induction false} FlagsOkIff(o: Flags)
    ensures var mode := ToLower(TrimSpace(Given(o.egressMode)));
            FlagsOk(o) <==>
              && o.name != "" && TrimSpace(o.name) == o.name
              && (forall k | k in GivenTable(o.aliases) ::
                    k != "" && GivenTable(o.aliases)[k] != ""
                    && TrimSpace(k) == k && TrimSpace(GivenTable(o.aliases)[k]) == GivenTable(o.aliases)[k])
              && (mode in {"http", "socks5", "socks5h"} ==> TrimSpace(Given(o.egressURL)) != "")
              && (mode in {"inherit", "direct"} ==> TrimSpace(Given(o.egressURL)) == "")
  {
    hide TrimSpace, ToLower;
  }

  // ----- Defaults -----

  /** The official profile is as it was, or newly put in, or neither. */
  ghost predicate OfficialKept(was: Disk, now: Disk) {
    if Has(was, "official") then Has(now, "official") && ReadsAs(now.profiles["official"], was.profiles["official"])
    else Has(now, "official") ==> now.profiles["official"] == OFFICIAL_PROFILE
  }

  lemma {:induction false} SetDefaultTakesEffect(d: Disk, name: string, urls: Urls)
    requires Load(d, urls).Ok?
    ensures Outcome(SetDefault(name), d, urls).Ok? <==>
            name != "" && TrimSpace(name) == name && d.Raw? && (name == "inherit-env" || name in d.profiles)
    ensures Outcome(SetDefault(name), d, urls).Ok? ==>
              var e := Outcome(SetDefault(name), d, urls).value;
              && e.Raw? && e.dflt == (if name == "inherit-env" then "official" else name)
              && Has(e, e.dflt) && KeepsOthers(d, e, {"official"}) && OfficialKept(d, e)
  {
    hide ProfileOk, TrimSpace, Valid, Load, ReadsAs;
    LoadedFields(d, urls);
    if d.Raw? && NameOk(name) {
      SetDefaultWrites(Load(d, urls).value.value, name, urls);
    }
  }

  lemma {:induction false} CliSetDefaultTakesEffect(d: Disk, name: string, urls: Urls)
    requires Load(d, urls).Ok?
    ensures Outcome(CliSetDefault(name), d, urls).Ok? <==>
            name != "" && TrimSpace(name) == name && d.Raw? && (name == "inherit-env" || name in d.profiles)
    ensures Outcome(CliSetDefault(name), d, urls).Ok? ==>
              var e := Outcome(CliSetDefault(name), d, urls).value;
              e.Raw? && e.dflt == name && KeepsOthers(d, e, {})
  {
    hide ProfileOk, TrimSpace, Load, ReadsAs;
    LoadedFields(d, urls);
    if d.Raw? && NameOk(name) {
      OfficialOk(urls);
    }
  }

  /** The default model is one alias more, and everything else is as it was. */
  lemma {:induction false} SetModelDefaultTakesEffect(d: Disk, name: string, target: string, urls: Urls)
    requires Load(d, urls).Ok?
    ensures var r := Outcome(SetModelDefault(name, target), d, urls);
            && (r.Ok? ==> Has(d, name))
            && (Has(d, name) ==>
                  var p := Load(d, urls).value.value.profiles[name];
                  && (r.Ok? <==> Acceptable(p.aliases["*" := target]))
                  && (r.Ok? ==>
                        && Has(r.value, name) && KeepsOthers(d, r.value, {name}) && r.value.dflt == DefaultOf(d)
                        && r.value.profiles[name] == p.(aliases := p.aliases["*" := target])))
  {
    hide ProfileOk, TrimSpace, Valid, Load, ReadsAs, Acceptable;
    LoadedFields(d, urls);
    if Has(d, name) {
      var f := Load(d, urls).value.value;
      if ModelDefaultSet(Some(f), name, target).Ok? {
        ModelDefaultWrites(f, name, target, urls);
      }
    }
  }

  // ----- Removing -----

  /** A removal takes the profile and nothing else; the default moves only if it was the
      profile, to official if it is left, else to the first name left, else to nothing. */
  lemma {:induction false} RemoveTakesEffect(d: Disk, name: string, confirm: string, urls: Urls)
    requires Load(d, urls).Ok?
    ensures Outcome(Remove(name, confirm), d, urls).Ok? ==>
              name != "" && TrimSpace(name) == name && TrimSpace(confirm) == name && Has(d, name)
    ensures name != "" && TrimSpace(name) == TrimSpace(confirm) == name && Has(d, name) && DefaultOf(d) != name ==>
              (Outcome(Remove(name, confirm), d, urls).Ok? <==> TrimSpace(DefaultOf(d)) != name)
    ensures Outcome(Remove(name, confirm), d, urls).Ok? ==>
              var e := Outcome(Remove(name, confirm), d, urls).value;
              && !Has(e, name) && KeepsOthers(d, e, {name})
              && (DefaultOf(d) != name ==> e.dflt == DefaultOf(d))
              && (DefaultOf(d) == name ==>
                    if "official" in e.profiles then e.dflt == "official"
                    else if e.profiles == map[] then e.dflt == "inherit-env"
                    else e.dflt in e.profiles && forall n | n in e.profiles :: LessEq(e.dflt, n))
  {
    hide ProfileOk, TrimSpace, Valid, Load, ReadsAs, LessEq, Fallback;
    LoadedFields(d, urls);
    if Has(d, name) && NameOk(name) {
      var f := Load(d, urls).value.value;
      RemoveWrites(f, name, urls);
      var left := f.profiles - {name};
      assert left.Keys == f.profiles.Keys - {name};
      assert IsFallback(Fallback(left.Keys), left.Keys);
    }
  }

  lemma {:induction false} CliRemoveTakesEffect(d: Disk, name: string, force: bool, urls: Urls)
    requires Load(d, urls).Ok?
    ensures Outcome(CliRemove(name, force), d, urls).Ok? <==>
            name != "" && TrimSpace(name) == name && Has(d, name)
            && (DefaultOf(d) == name || TrimSpace(DefaultOf(d)) != name)
    ensures Outcome(CliRemove(name, force), d, urls).Ok? ==>
              var e := Outcome(CliRemove(name, force), d, urls).value;
              && !Has(e, name) && KeepsOthers(d, e, {name})
              && e.dflt == if DefaultOf(d) == name then "inherit-env" else DefaultOf(d)
  {
    hide ProfileOk, TrimSpace, Load, ReadsAs;
    LoadedFields(d, urls);
    if Has(d, name) && NameOk(name) {
      var f := Load(d, urls).value.value;
      OfficialOk(urls);
      NotReserved(name, f.profiles[name], urls);
      var left := f.profiles - {name};
      assert left.Keys == f.profiles.Keys - {name};
      assert forall n | n in left :: ProfileOk(n, left[n], urls);
    }
  }

  // ----- First launch -----

  /** The migration's profile: the upstream, and the one credential that counts, under the
      mode that belongs to it. */
  predicate SaysSeed(s: Seed, p: Profile) {
    && p.provider == s.provider && p.baseURL == s.baseURL && p.aliases == map[] && p.headers == map[]
    && p.egress == Egress("inherit", "")
    && p.auth == Some(if s.apiKey != "" then Auth("ccwrap_x_api_key", s.apiKey, "")
                      else Auth("ccwrap_bearer", s.authToken, ""))
  }

  /** What a migration needs of the launch environment. */
  lemma {:induction false} MigratableIff(s: Seed, urls: Urls)
    ensures Migratable(s, urls) <==>
              && s.name != "" && TrimSpace(s.name) == s.name && s.name != "inherit-env"
              && s.baseURL != "" && TrimSpace(s.baseURL) == s.baseURL && !(s.apiKey == "" && s.authToken == "")
              && urls(s.baseURL).Some?
              && var host := urls(s.baseURL).value.hostname;
                 && host != ""
                 && ToLower(TrimRight(TrimSpace(host), c => c == '.')) != "api.anthropic.com"
                 && ToLower(TrimRight(TrimSpace(host), c => c == '.')) != "api-staging.anthropic.com"
  {
    hide TrimSpace, ToLower, TrimRight;
  }

  lemma {:induction false} MigrateTakesEffect(d: Disk, s: Seed, urls: Urls)
    requires Load(d, urls).Ok?
    ensures d == Missing ==> (Outcome(Migrate(s), d, urls).Ok? <==> Migratable(s, urls))
    ensures d.Raw? ==>
              (Outcome(Migrate(s), d, urls).Ok? <==>
                 && Migratable(s, urls) && s.name !in d.profiles
                 && (forall n | n in d.profiles :: TrimSpace(d.profiles[n].baseURL) != s.baseURL)
                 && ProfileOk(s.name, SeedProfile(s), urls))
    ensures Outcome(Migrate(s), d, urls).Ok? ==>
              var e := Outcome(Migrate(s), d, urls).value;
              && Has(e, s.name) && SaysSeed(s, e.profiles[s.name]) && KeepsOthers(d, e, {s.name})
              && e.dflt == if d.Raw? then DefaultOf(d) else s.name
  {
    hide ProfileOk, TrimSpace, Valid, Load, Cleans, FirstParty;
    LoadedFields(d, urls);
    if d.Raw? {
      var f := Load(d, urls).value.value;
      if NameOk(s.name) {
        PutValid(f, f.dflt, s.name, SeedProfile(s), urls);
      }
      assert forall n | n in d.profiles :: f.profiles[n].baseURL == d.profiles[n].baseURL;
    }
  }
}

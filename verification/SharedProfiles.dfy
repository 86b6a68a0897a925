/** profiles.json as the shared file: what each writer makes of it, and what that means
    for the file over whole runs. */
module SharedProfiles {
  import opened Prelude
  import opened Text
  import opened ModelAlias
  import opened Profiles
  import opened ProfileEdits
  import opened SharedFile

  datatype Job =
    | Add(add: AddRequest)
    | Edit(edit: EditRequest)
    | Remove(name: string, confirm: string)
    | SetDefault(name: string)
    | SetModelDefault(name: string, target: string)
    | CliAdd(flags: Flags)
    | CliEdit(flags: Flags)
    | CliSetDefault(name: string)
    | CliRemove(name: string, force: bool)
    | Migrate(seed: Seed)
    | EnsureOfficial

  /** The edited file, from the one loaded under the lock. */
  function EditOf(job: Job, f: Option<File>, urls: Urls): Result<File, Refusal>
    requires !job.EnsureOfficial?
  {
    match job
    case Add(req) => Added(f, req)
    case Edit(req) => Edited(f, req)
    case Remove(n, c) => Removed(f, n, c)
    case SetDefault(n) => DefaultSet(f, n)
    case SetModelDefault(n, t) => ModelDefaultSet(f, n, t)
    case CliAdd(o) => CliAdded(f, o)
    case CliEdit(o) => CliEdited(f, o)
    case CliSetDefault(n) => CliDefaultSet(f, n)
    case CliRemove(n, _) => CliRemoved(f, n)
    case Migrate(seed) => Migrated(f, seed, urls)
  }

  /** What a job turns the disk into, or why it leaves it alone. */
  function Outcome(job: Job, d: Disk, urls: Urls): Result<Disk, Refusal> {
    if job.EnsureOfficial? then Ensured(d, urls)
    else if Load(d, urls).Err? then Err(NotWritten)
    else
      var r := EditOf(job, Load(d, urls).value, urls);
      if r.Err? then Err(r.error)
      else if Valid(r.value, urls) || (job.Migrate? && d == Missing) then Ok(Encoded(r.value))
      else Err(Rejected)
  }

  predicate LooksFirst(job: Job) {
    job.CliRemove? || job.Migrate?
  }

  /** Whether a job goes on after its unlocked look at the file. */
  predicate GoesOn(job: Job, seen: Disk, urls: Urls)
    requires LooksFirst(job)
  {
    Load(seen, urls).Ok? &&
    var f := Load(seen, urls).value;
    if job.CliRemove? then
      NameOk(job.name) && f.Some? && job.name in f.value.profiles && (job.force || job.name != f.value.dflt)
    else Migratable(job.seed, urls) && (f.None? || !HasBaseURL(f.value, job.seed.baseURL))
  }

  /** When a job goes on: `rm` if the profile is there and, unforced, is not the default; the
      migration if it has what it needs and no profile has its upstream yet. */
  lemma {:induction false} GoesOnIff(seen: Disk, urls: Urls, name: string, force: bool, s: Seed)
    requires Load(seen, urls).Ok?
    ensures GoesOn(CliRemove(name, force), seen, urls) <==>
            && name != "" && TrimSpace(name) == name && seen.Raw? && name in seen.profiles
            && (force || name != if seen.dflt == "" then "inherit-env" else seen.dflt)
    ensures GoesOn(Migrate(s), seen, urls) <==>
            && Migratable(s, urls)
            && (seen.Raw? ==> forall n | n in seen.profiles :: TrimSpace(seen.profiles[n].baseURL) != s.baseURL)
  {
    hide Valid, TrimSpace, AllCoerce, Migratable, Coerced;
    if seen.Raw? {
      assert forall n | n in seen.profiles ::
          Load(seen, urls).value.value.profiles[n].baseURL == seen.profiles[n].baseURL;
    }
  }

  /** The writers of profiles.json as jobs on a shared file. */
  ghost function Writers(urls: Urls): Rules<Job, Disk> {
    Rules((job, d) => match Outcome(job, d, urls) case Ok(e) => Some(e) case Err(_) => None,
          job => LooksFirst(job),
          (job, d) => LooksFirst(job) && GoesOn(job, d, urls),
          d => d == Missing)
  }

  lemma {:induction false} WritersAre(urls: Urls, job: Job, d: Disk)
    ensures var r := Writers(urls);
            && r.edit(job, d) == (match Outcome(job, d, urls) case Ok(e) => Some(e) case Err(_) => None)
            && (r.looks(job) <==> LooksFirst(job)) && (r.goesOn(job, d) <==> LooksFirst(job) && GoesOn(job, d, urls))
            && (r.missing(d) <==> d == Missing)
  {
    hide Outcome, GoesOn;
  }

  /** The profile a job is about. */
  function NameIn(job: Job): string {
    match job
    case Add(req) => req.name
    case Edit(req) => req.name
    case Remove(n, _) => n
    case SetDefault(_) => OFFICIAL
    case SetModelDefault(n, _) => n
    case CliAdd(o) => o.name
    case CliEdit(o) => o.name
    case CliSetDefault(n) => n
    case CliRemove(n, _) => n
    case Migrate(seed) => seed.name
    case EnsureOfficial => OFFICIAL
  }

  /** The file holds a profile that reads as `p`. */
  predicate Holds(d: Disk, name: string, p: Profile) {
    d.Raw? && name in d.profiles && Parsed(d.profiles[name]) == p
  }

  lemma {:induction false} EditKeepsOthers(job: Job, f: File, name: string, urls: Urls)
    requires !job.EnsureOfficial? && EditOf(job, Some(f), urls).Ok? && name in f.profiles && name != NameIn(job)
    ensures var g := EditOf(job, Some(f), urls).value; name in g.profiles && g.profiles[name] == f.profiles[name]
  {
    hide NameOk, Acceptable, Fallback, EditedProfile, CliEditedProfile, AddChecked, AddFlagsOk, FlagsOk, SeedProfile,
      TrimSpace, Migratable;
  }

  lemma {:induction false} OutcomeKeepsOthers(job: Job, d: Disk, urls: Urls, name: string, p: Profile)
    requires Holds(d, name, p) && name != NameIn(job) && Outcome(job, d, urls).Ok?
    ensures Holds(Outcome(job, d, urls).value, name, p)
  {
    hide Valid, EditOf, Coerced, Coerces;
    if !job.EnsureOfficial? {
      EditKeepsOthers(job, Read(Decoded(d)), name, urls);
      CoercedTwice(d.profiles[name].aliases);
    }
  }

  /** A profile that none of the successful jobs is about is still there and reads as it did,
      however many other edits were made around it. */
  lemma {:induction false} UntouchedProfileSurvives(
      start: Disk, turns: seq<Option<Job>>, urls: Urls, name: string, p: Profile)
    requires Holds(start, name, p) && AllOk(start, turns, Writers(urls))
    requires forall t | t in turns && t.Some? :: NameIn(t.value) != name
    ensures Holds(Replay(start, turns, Writers(urls)), name, p)
    decreases |turns|
  {
    hide Outcome, Holds, NameIn, TurnOk, Writers, AllOk;
    if turns != [] {
      var n := |turns| - 1;
      AllOkFirst(start, turns, Writers(urls));
      UntouchedProfileSurvives(start, turns[..n], urls, name, p);
      assert turns[n] in turns;
      var before := Replay(start, turns[..n], Writers(urls));
      if turns[n].Some? && Writers(urls).edit(turns[n].value, before).Some? {
        WritersAre(urls, turns[n].value, before);
        OutcomeKeepsOthers(turns[n].value, before, urls, name, p);
      }
    }
  }

  // ----- What can be read back -----

  /** What has to hold of a seed for the file it may become to be valid: the write of a
      first file is the one that is not validated. */
  predicate FreshSeedOk(seed: Seed, urls: Urls) {
    && seed.name !in RESERVED && BaseURLOk(seed.baseURL, urls)
    && (seed.apiKey != "" ==> !Blank(seed.apiKey))
    && (seed.apiKey == "" && seed.authToken != "" ==> !Blank(seed.authToken))
  }

  /** The alias table a job brings along. */
  function AliasesGiven(job: Job): Table {
    match job
    case Add(req) => req.profile.aliases
    case Edit(req) => if req.aliases.Some? then req.aliases.value else map[]
    case CliAdd(o) => GivenTable(o.aliases)
    case CliEdit(o) => GivenTable(o.aliases)
    case _ => map[]
  }

  /** Whether nothing is left of a profile's aliases after the job. */
  predicate Drops(job: Job, name: string) {
    match job
    case Edit(req) => name == req.name && req.aliases.Some?
    case Remove(n, _) => name == n
    case CliRemove(n, _) => name == n
    case _ => false
  }

  /** When a writer leaves a file that can be read back: if a migration that creates the file
      has a fit seed, and the aliases given, like those left in the file, keep clear of blank
      names and of the wrappers. The launch-time repair writes what it found. */
  predicate Readable(job: Job, d: Disk, urls: Urls) {
    job.EnsureOfficial? ||
    (&& (job.Migrate? && d == Missing ==> FreshSeedOk(job.seed, urls))
     && Coerces(AliasesGiven(job))
     && (d.Raw? ==> forall n | n in d.profiles && !Drops(job, n) :: Steady(d.profiles[n].aliases)))
  }

  /** A writer that finds a loadable file, or none, and goes through leaves a loadable one
      exactly when the job is readable: neither the aliases given nor, where the file is
      created, the seed is looked at before the write. */
  lemma {:induction false} OutcomeLoads(job: Job, d: Disk, urls: Urls)
    requires Load(d, urls).Ok? && Outcome(job, d, urls).Ok?
    ensures Outcome(job, d, urls).value.Raw?
    ensures Load(Outcome(job, d, urls).value, urls).Ok? <==> Readable(job, d, urls)
  {
    hide Valid, EditOf, Ensured, FreshSeedOk, Coerces, Steady, Drops, Read;
    if job.EnsureOfficial? {
      EnsureWrites(d, urls);
    } else {
      var f := EditOf(job, Load(d, urls).value, urls).value;
      EncodedLoads(f, urls);
      CoercesSplits();
      if d.Raw? {
        LoadedCoerces(job, d, urls);
      } else if job.Migrate? {
        FreshOutcome(job, urls);
      }
      EditHas(job, Load(d, urls).value, urls, t => Coerces(t));
      assert AllCoerce(f) <==> AllHave(f, t => Coerces(t));
    }
  }

  /** What was loaded can be written and read again where the tables on disk are steady. */
  lemma {:induction false} LoadedCoerces(job: Job, d: Disk, urls: Urls)
    requires d.Raw? && Load(d, urls).Ok?
    ensures var f := Load(d, urls).value;
            && f.Some?
            && (forall n | n in f.value.profiles :: NoBlanks(f.value.profiles[n].aliases))
            && ((forall n | n in f.value.profiles && !Drops(job, n) :: Coerces(f.value.profiles[n].aliases))
                <==> forall n | n in d.profiles && !Drops(job, n) :: Steady(d.profiles[n].aliases))
  {
    hide Valid, Coerces, Coerced, Steady, Drops, NoBlanks;
    var f := Load(d, urls).value.value;
    forall n | n in d.profiles
      ensures NoBlanks(f.profiles[n].aliases) && (Coerces(f.profiles[n].aliases) <==> Steady(d.profiles[n].aliases))
    {
      assert f.profiles[n] == Parsed(d.profiles[n]);
      CoercedCoercesIffSteady(d.profiles[n].aliases);
    }
  }

  /** A property of alias tables that a merged table has when both parts have it, and that
      neither an empty table nor a target for `*` can break. */
  ghost predicate Splits(q: Table -> bool) {
    && q(map[])
    && (forall was, given | NoBlanks(was) :: q(was + given) <==> q(was) && q(given))
    && (forall target | !Blank(target) :: q(map[DEFAULT_KEY := target]))
  }

  ghost predicate AllHave(f: File, q: Table -> bool) {
    forall n | n in f.profiles :: q(f.profiles[n].aliases)
  }

  ghost predicate OthersHave(f: File, name: string, q: Table -> bool) {
    forall n | n in f.profiles && n != name :: q(f.profiles[n].aliases)
  }

  lemma {:induction false} PutHas(f: File, dflt: string, name: string, p: Profile, q: Table -> bool)
    ensures AllHave(File(dflt, f.profiles[name := p]), q) <==> q(p.aliases) && OthersHave(f, name, q)
    ensures name in f.profiles ==> (AllHave(f, q) <==> q(f.profiles[name].aliases) && OthersHave(f, name, q))
    ensures name !in f.profiles ==> (AllHave(f, q) <==> OthersHave(f, name, q))
  {
    var g := File(dflt, f.profiles[name := p]);
    assert name in g.profiles && g.profiles[name] == p;
    assert forall n | n in f.profiles && n != name :: n in g.profiles && g.profiles[n] == f.profiles[n];
  }

  lemma {:induction false} TakeHas(f: File, dflt: string, name: string, q: Table -> bool)
    ensures AllHave(File(dflt, f.profiles - {name}), q) <==> OthersHave(f, name, q)
  {
    var g := File(dflt, f.profiles - {name});
    assert forall n | n in f.profiles && n != name :: n in g.profiles && g.profiles[n] == f.profiles[n];
  }

  lemma {:induction false} AddedHas(f: Option<File>, req: AddRequest, q: Table -> bool)
    requires Added(f, req).Ok? && Splits(q)
    ensures AllHave(Added(f, req).value, q) <==> q(req.profile.aliases) && (f.Some? ==> AllHave(f.value, q))
  {
    hide AddChecked;
    var base := if f.Some? then f.value else File(OFFICIAL, map[OFFICIAL := OFFICIAL_PROFILE]);
    PutHas(base, Added(f, req).value.dflt, req.name, req.profile, q);
  }

  lemma {:induction false} CliAddedHas(f: Option<File>, o: Flags, q: Table -> bool)
    requires CliAdded(f, o).Ok? && Splits(q)
    ensures AllHave(CliAdded(f, o).value, q) <==> q(GivenTable(o.aliases)) && (f.Some? ==> AllHave(f.value, q))
  {
    hide AddFlagsOk, GivenTable;
    var base := if f.Some? then f.value else File(INHERIT_ENV, map[]);
    var g := CliAdded(f, o).value;
    PutHas(base, g.dflt, o.name, g.profiles[o.name], q);
  }

  lemma {:induction false} EditedHas(f: File, req: EditRequest, q: Table -> bool)
    requires Edited(Some(f), req).Ok?
    ensures AllHave(Edited(Some(f), req).value, q) <==>
            if req.aliases.Some? then q(req.aliases.value) && OthersHave(f, req.name, q) else AllHave(f, q)
  {
    hide EditedProfile, AllHave, OthersHave;
    var g := Edited(Some(f), req).value;
    EditDoes(f.profiles[req.name], req);
    PutHas(f, g.dflt, req.name, g.profiles[req.name], q);
  }

  lemma {:induction false} CliEditedHas(f: File, o: Flags, q: Table -> bool)
    requires CliEdited(Some(f), o).Ok? && Splits(q) && NoBlanks(f.profiles[o.name].aliases)
    ensures AllHave(CliEdited(Some(f), o).value, q) <==> q(GivenTable(o.aliases)) && AllHave(f, q)
  {
    hide CliEditedAuth, FlagsOk, GivenTable, AllHave, OthersHave, NoBlanks;
    var g := CliEdited(Some(f), o).value;
    PutHas(f, g.dflt, o.name, g.profiles[o.name], q);
  }

  lemma {:induction false} ModelDefaultHas(f: File, name: string, target: string, q: Table -> bool)
    requires ModelDefaultSet(Some(f), name, target).Ok? && Splits(q) && NoBlanks(f.profiles[name].aliases)
    ensures AllHave(ModelDefaultSet(Some(f), name, target).value, q) <==> AllHave(f, q)
  {
    hide Acceptable, AllHave, OthersHave, NoBlanks;
    var g := ModelDefaultSet(Some(f), name, target).value;
    var was := f.profiles[name].aliases;
    DefaultTargetGiven(was, target);
    assert was + map[DEFAULT_KEY := target] == was[DEFAULT_KEY := target];
    PutHas(f, g.dflt, name, g.profiles[name], q);
  }

  lemma {:induction false} DefaultTargetGiven(was: Table, target: string)
    requires Acceptable(was[DEFAULT_KEY := target])
    ensures !Blank(target)
  {
    hide TrimSpace, LooksProviderSpecific;
    var t := was[DEFAULT_KEY := target];
    assert DEFAULT_KEY in t;
    assert !BadEntry(DEFAULT_KEY, t[DEFAULT_KEY]);
  }

  lemma {:induction false} DefaultSetHas(f: Option<File>, name: string, q: Table -> bool)
    requires DefaultSet(f, name).Ok? && Splits(q)
    ensures f.Some? && (AllHave(DefaultSet(f, name).value, q) <==> AllHave(f.value, q))
  {
    hide NameOk;
    PutHas(f.value, OFFICIAL, OFFICIAL, OFFICIAL_PROFILE, q);
  }

  lemma {:induction false} MigratedHas(f: Option<File>, seed: Seed, urls: Urls, q: Table -> bool)
    requires Migrated(f, seed, urls).Ok? && Splits(q)
    ensures AllHave(Migrated(f, seed, urls).value, q) <==> (f.Some? ==> AllHave(f.value, q))
  {
    hide Migratable, HasBaseURL;
    var base := if f.Some? then f.value else File(seed.name, map[]);
    PutHas(base, Migrated(f, seed, urls).value.dflt, seed.name, SeedProfile(seed), q);
  }

  /** Whether the tables of an edited file have the property, by the tables given and those
      that were there. */
  lemma {:induction false} EditHas(job: Job, f: Option<File>, urls: Urls, q: Table -> bool)
    requires !job.EnsureOfficial? && EditOf(job, f, urls).Ok? && Splits(q)
    requires f.Some? ==> forall n | n in f.value.profiles :: NoBlanks(f.value.profiles[n].aliases)
    ensures AllHave(EditOf(job, f, urls).value, q) <==>
            && q(AliasesGiven(job))
            && (f.Some? ==> forall n | n in f.value.profiles && !Drops(job, n) :: q(f.value.profiles[n].aliases))
  {
    hide NoBlanks, Added, CliAdded, Migrated, EditedProfile, CliEditedProfile, NameOk, FlagsOk, Acceptable, DefaultSet,
      Fallback;
    match job
    case Add(req) => AddedHas(f, req, q);
    case Edit(req) => EditedHas(f.value, req, q);
    case Remove(n, _) => TakeHas(f.value, EditOf(job, f, urls).value.dflt, n, q);
    case SetDefault(n) => DefaultSetHas(f, n, q);
    case SetModelDefault(n, t) => ModelDefaultHas(f.value, n, t, q);
    case CliAdd(o) => CliAddedHas(f, o, q);
    case CliEdit(o) => CliEditedHas(f.value, o, q);
    case CliSetDefault(_) =>
    case CliRemove(n, _) => TakeHas(f.value, EditOf(job, f, urls).value.dflt, n, q);
    case Migrate(seed) => MigratedHas(f, seed, urls, q);
  }

  lemma {:induction false} CoercesSplits()
    ensures Splits(t => Coerces(t))
  {
    hide TrimSpace, Coerces;
    NoAliasesCoerce();
    forall was, given | NoBlanks(was) ensures Coerces(was + given) <==> Coerces(was) && Coerces(given) {
      MergedCoerces(was, given);
    }
    forall target | !Blank(target) ensures Coerces(map[DEFAULT_KEY := target]) {
      StarFits(target);
    }
  }

  lemma {:induction false} MergedCoerces(was: Table, given: Table)
    requires NoBlanks(was)
    ensures Coerces(was + given) <==> Coerces(was) && Coerces(given)
  {
    hide TrimSpace;
    forall k | k in was + given ensures k in was || k in given {
    }
  }

  lemma {:induction false} SteadySplits()
    ensures Splits(t => Steady(t))
  {
    hide TrimSpace, NoBlanks;
    NoAliasesCoerce();
    forall target | !Blank(target) ensures Steady(map[DEFAULT_KEY := target]) {
      StarFits(target);
    }
  }

  lemma {:induction false} StarFits(target: string)
    requires !Blank(target)
    ensures Coerces(map[DEFAULT_KEY := target]) && Steady(map[DEFAULT_KEY := target])
  {
    hide TrimSpace;
    Trimmed(DEFAULT_KEY);
  }

  lemma {:induction false} FreshOutcome(job: Job, urls: Urls)
    requires job.Migrate? && EditOf(job, None, urls).Ok?
    ensures Valid(EditOf(job, None, urls).value, urls) <==> FreshSeedOk(job.seed, urls)
  {
    hide Valid, Migratable;
    FreshSeedValidIff(job.seed, urls);
  }

  /** A table that can be read however often it is written. */
  predicate AliasesFit(t: Table) {
    NoBlanks(t) && Steady(t)
  }

  /** A job that brings nothing unreadable to a path holding what `d` is. */
  predicate Fit(job: Job, d: Disk, urls: Urls) {
    AliasesFit(AliasesGiven(job)) && (job.Migrate? ==> d.Raw? || FreshSeedOk(job.seed, urls))
  }

  predicate LoadsSteadily(d: Disk, urls: Urls) {
    Load(d, urls).Ok? && (d.Raw? ==> forall n | n in d.profiles :: Steady(d.profiles[n].aliases))
  }

  /** From a loadable file with steady aliases, or from none if every seed is fit, and with
      fit alias tables given, every version of every interleaving loads, and a launch that
      names no profile always resolves on it. */
  lemma {:induction false} EveryVersionLoads(start: Disk, urls: Urls, steps: seq<Step<Job>>, v: Disk)
    requires LoadsSteadily(start, urls) && Run(Init(start), Writers(urls), steps).Some?
    requires forall t | t in steps && t.Start? :: Fit(t.job, start, urls)
    requires v in Run(Init(start), Writers(urls), steps).value.versions
    ensures Load(v, urls).Ok?
    ensures Selected(Load(v, urls).value, "").Inherit? || Selected(Load(v, urls).value, "").Chosen?
  {
    hide Run, Load, Selected, Writers, Inv, Outcome, AliasesFit, FreshSeedOk;
    StartsWell(start, Writers(urls));
    var fit := (job: Job) => Fit(job, start, urls);
    var good := (d: Disk) => LoadsSteadily(d, urls) && (start.Raw? ==> d.Raw?);
    forall job, d | fit(job) && good(d) && Writers(urls).edit(job, d).Some?
      ensures good(Writers(urls).edit(job, d).value)
    {
      WritersAre(urls, job, d);
      KeepsLoading(job, d, urls);
    }
    VersionsStayGood(Init(start), Writers(urls), steps, start, fit, good);
    DefaultAlwaysSelects(v, urls);
  }

  lemma {:induction false} KeepsLoading(job: Job, d: Disk, urls: Urls)
    requires LoadsSteadily(d, urls) && Outcome(job, d, urls).Ok? && Fit(job, d, urls)
    ensures Outcome(job, d, urls).value.Raw? && LoadsSteadily(Outcome(job, d, urls).value, urls)
  {
    hide Load, Outcome, FreshSeedOk, NoBlanks, Steady, AliasesGiven, Drops;
    FitCoerces(AliasesGiven(job));
    OutcomeLoads(job, d, urls);
    OutcomeSteady(job, d, urls);
  }

  lemma {:induction false} FitCoerces(t: Table)
    requires AliasesFit(t)
    ensures Coerces(t)
  {
    hide TrimSpace, NoBlanks;
    Trimmed("modelAliases");
    Trimmed("model_aliases");
    Trimmed("ccwrap");
  }

  lemma {:induction false} OutcomeSteady(job: Job, d: Disk, urls: Urls)
    requires LoadsSteadily(d, urls) && Outcome(job, d, urls).Ok? && Steady(AliasesGiven(job))
    ensures var e := Outcome(job, d, urls).value;
            e.Raw? ==> forall n | n in e.profiles :: Steady(e.profiles[n].aliases)
  {
    hide Valid, EditOf, Steady, Drops, Coerces, AliasesGiven, Coerced;
    NoAliasesCoerce();
    if !job.EnsureOfficial? {
      SteadySplits();
      if d.Raw? {
        LoadedSteady(d, urls);
      }
      EditHas(job, Load(d, urls).value, urls, t => Steady(t));
    }
  }

  lemma {:induction false} LoadedSteady(d: Disk, urls: Urls)
    requires d.Raw? && LoadsSteadily(d, urls)
    ensures var f := Load(d, urls).value;
            f.Some? && forall n | n in f.value.profiles ::
              NoBlanks(f.value.profiles[n].aliases) && Steady(f.value.profiles[n].aliases)
  {
    hide Valid, Coerces, Coerced, Steady, NoBlanks;
    var f := Load(d, urls).value.value;
    forall n | n in f.profiles ensures NoBlanks(f.profiles[n].aliases) && Steady(f.profiles[n].aliases) {
      assert f.profiles[n] == Parsed(d.profiles[n]);
      CoercedCoercesIffSteady(d.profiles[n].aliases);
    }
  }

  // ----- Files nobody can read -----

  const GATEWAY := "https://gw.example"

  function Gateway(baseURL: string, aliases: Table): Profile {
    Profile("", baseURL, None, aliases, map[], Egress("", ""))
  }

  lemma {:induction false} GatewayOk(name: string, aliases: Table, urls: Urls)
    requires BaseURLOk(GATEWAY, urls) && name in {"a", "gw"}
    ensures ProfileOk(name, Gateway(GATEWAY, aliases), urls) && NameOk(name)
    ensures Blank("") && Lowered("") == "" && !Blank(GATEWAY)
  {
    hide TrimSpace, BaseURLOk;
    Trimmed("");
    Trimmed(GATEWAY);
    Trimmed(name);
  }

  /** An alias without a target is added, and nothing loads the file any more. */
  lemma {:induction false} BlankAliasSpoilsFile(urls: Urls)
    requires BaseURLOk(GATEWAY, urls)
    ensures var r := Outcome(Add(AddRequest("gw", Gateway(GATEWAY, map["claude-x" := ""]), false)), Missing, urls);
            r.Ok? && Load(r.value, urls).Err?
  {
    hide ProfileOk, Blank, Lowered, NameOk, Load, Readable, TrimSpace;
    var t := map["claude-x" := ""];
    GatewayOk("gw", t, urls);
    OfficialOk(urls);
    var job := Add(AddRequest("gw", Gateway(GATEWAY, t), false));
    NothingThere(urls);
    assert AddChecked(job.add) == None;
    assert Outcome(job, Missing, urls).Ok?;
    OutcomeLoads(job, Missing, urls);
    BlankTarget(t, "claude-x");
    NotReadable(job, Missing, urls);
  }

  lemma {:induction false} NothingThere(urls: Urls)
    ensures Load(Missing, urls) == Ok(None)
  {
  }

  lemma {:induction false} BlankTarget(t: Table, k: string)
    requires k in t && Blank(t[k])
    ensures !Coerces(t)
  {
    hide Blank;
  }

  lemma {:induction false} NotReadable(job: Job, d: Disk, urls: Urls)
    requires !job.EnsureOfficial?
    requires !Coerces(AliasesGiven(job)) || (d.Raw? && exists n :: n in d.profiles && !Drops(job, n)
                                                                    && !Steady(d.profiles[n].aliases))
    ensures !Readable(job, d, urls)
  {
    hide Coerces, Steady, Drops, FreshSeedOk, AliasesGiven;
  }

  /** A wrapper's name with a space before it is read as an alias; choosing a default writes
      it without the space, and nothing loads the file any more. */
  lemma {:induction false} SpacedWrapperSpoilsFile(urls: Urls)
    requires BaseURLOk(GATEWAY, urls)
    ensures var d := Raw("a", map["a" := Gateway(GATEWAY, map[" ccwrap" := "m"])]);
            var r := Outcome(CliSetDefault("a"), d, urls);
            Load(d, urls).Ok? && r.Ok? && Load(r.value, urls).Err?
  {
    hide ProfileOk, NameOk, Load, Readable, Coerces, Steady, Valid, TrimSpace;
    var t := map[" ccwrap" := "m"];
    var f := File("a", map["a" := Gateway(GATEWAY, t)]);
    SpacedWrapperReads(t);
    GatewayOk("a", t, urls);
    OneProfileLoads(f, urls);
    var d, job := Encoded(f), CliSetDefault("a");
    OutcomeLoads(job, d, urls);
    assert "a" in d.profiles && !Drops(job, "a");
    NotReadable(job, d, urls);
  }

  lemma {:induction false} SpacedWrapperReads(t: Table)
    requires t == map[" ccwrap" := "m"]
    ensures Coerces(t) && !Steady(t)
  {
    hide TrimSpace;
    TrimUnique(" ", "ccwrap", "");
    assert " " + "ccwrap" + "" == " ccwrap";
    Trimmed("m");
    assert " ccwrap" in t;
  }

  lemma {:induction false} OneProfileLoads(f: File, urls: Urls)
    requires f.dflt == "a" && f.profiles.Keys == {"a"} && Coerces(f.profiles["a"].aliases)
    requires ProfileOk("a", f.profiles["a"], urls) && NameOk("a")
    ensures Load(Encoded(f), urls).Ok? && Outcome(CliSetDefault("a"), Encoded(f), urls).Ok?
  {
    hide ProfileOk, Coerces, TrimSpace, Load;
    EncodedLoads(f, urls);
    ReadValid(f, urls);
    LoadedIsRead(f, urls);
  }

  lemma {:induction false} LoadedIsRead(f: File, urls: Urls)
    requires Load(Encoded(f), urls).Ok? && f.dflt != ""
    ensures Load(Encoded(f), urls) == Ok(Some(Read(f)))
  {
    hide Valid, AllCoerce, Read;
  }

  /** A launch environment with an ftp URL and no file yet: the migration's file is written
      and nothing loads it. */
  lemma {:induction false} FtpSeedSpoilsFile(urls: Urls)
    requires urls("ftp://gw.example") == Some(Url("ftp", "gw.example", "gw.example"))
    ensures var r := Outcome(Migrate(Seed("gw", "ftp://gw.example", "gw", "k", "")), Missing, urls);
            r.Ok? && Load(r.value, urls).Err?
  {
    hide Load, TrimSpace, FirstParty, ToLower, Readable;
    var seed := Seed("gw", "ftp://gw.example", "gw", "k", "");
    FtpIsNoHttp(urls);
    Trimmed("gw");
    NothingThere(urls);
    assert Migratable(seed, urls);
    OutcomeLoads(Migrate(seed), Missing, urls);
    assert !Readable(Migrate(seed), Missing, urls) by { SeedNotReadable(seed, urls); }
  }

  lemma {:induction false} FtpIsNoHttp(urls: Urls)
    requires urls("ftp://gw.example") == Some(Url("ftp", "gw.example", "gw.example"))
    ensures TrimSpace("ftp://gw.example") == "ftp://gw.example"
    ensures !FirstParty(urls("ftp://gw.example").value) && !BaseURLOk("ftp://gw.example", urls)
  {
    hide TrimSpace;
    Trimmed("ftp://gw.example");
    Trimmed("gw.example");
    assert ToLower("gw.example")[0] == 'g';
    assert ToLower("ftp")[0] == 'f';
  }

  lemma {:induction false} SeedNotReadable(seed: Seed, urls: Urls)
    requires !BaseURLOk(seed.baseURL, urls)
    ensures !Readable(Migrate(seed), Missing, urls)
  {
    hide BaseURLOk;
  }

  // ----- Removing the default by command line -----

  /** An unforced `rm` that is about to write saw another default when it looked, and the
      profile in place. It takes the default away exactly when the default has become the
      profile by the time it holds the lock. */
  lemma {:induction false} UnforcedRmTakesDefaultIff(
      start: Disk, urls: Urls, steps: seq<Step<Job>>, p: Pid, name: string, file: Disk)
    requires Run(Init(start), Writers(urls), steps).Some? && file.Raw?
    requires var s := Run(Init(start), Writers(urls), steps).value;
             && p in s.procs && s.procs[p].job == CliRemove(name, false)
             && s.procs[p].phase.Loaded? && s.procs[p].phase.file == file
    ensures var s := Run(Init(start), Writers(urls), steps).value; var saw := s.procs[p].phase.saw;
            && saw.Some? && saw.value in s.versions && saw.value.Raw?
            && name in saw.value.profiles && Decoded(saw.value).dflt != name
    ensures var e := Writers(urls).edit(CliRemove(name, false), file);
            e.Some? ==>
              e.value == Raw(if Decoded(file).dflt == name then INHERIT_ENV else Decoded(file).dflt,
                             Read(Decoded(file)).profiles - {name})
  {
    hide Run, Outcome, GoesOn, Writers, LockHeld, Serial, Fresh;
    StartsWell(start, Writers(urls));
    RunKeepsInv(Init(start), Writers(urls), steps, start);
    var s := Run(Init(start), Writers(urls), steps).value;
    WritersAre(urls, s.procs[p].job, file);
    WritersAre(urls, s.procs[p].job, s.procs[p].phase.saw.value);
    LookAllowsRm(s.procs[p].phase.saw.value, name, urls);
    if Outcome(CliRemove(name, false), file, urls).Ok? {
      RmOutcome(file, name, urls);
    }
  }

  lemma {:induction false} LookAllowsRm(seen: Disk, name: string, urls: Urls)
    requires GoesOn(CliRemove(name, false), seen, urls)
    ensures seen.Raw? && name in seen.profiles && Decoded(seen).dflt != name
  {
    hide Valid, NameOk, AllCoerce, Parsed;
  }

  lemma {:induction false} RmOutcome(d: Disk, name: string, urls: Urls)
    requires d.Raw? && Outcome(CliRemove(name, false), d, urls).Ok?
    ensures Outcome(CliRemove(name, false), d, urls).value ==
            Raw(if Decoded(d).dflt == name then INHERIT_ENV else Decoded(d).dflt, Read(Decoded(d)).profiles - {name})
  {
    hide Valid, NameOk, AllCoerce, Parsed;
  }

  /** And it does happen: `set-default b` between the look and the lock of `rm b`. */
  lemma {:induction false} UnforcedRmCanTakeDefault(urls: Urls, a: Profile, b: Profile) returns (steps: seq<Step<Job>>)
    requires ProfileOk("a", a, urls) && ProfileOk("b", b, urls) && a.aliases == b.aliases == map[]
    ensures var start := Raw("a", map["a" := a, "b" := b]);
            && Run(Init(start), Writers(urls), steps).Some?
            && var s := Run(Init(start), Writers(urls), steps).value;
               && s.procs == map[1 := Proc(CliRemove("b", false), Gone(true)),
                                 2 := Proc(CliSetDefault("b"), Gone(true))]
               && s.disk == Raw(INHERIT_ENV, map["a" := a])
  {
    hide Outcome, Run, GoesOn, ProfileOk, Writers;
    var m := map["a" := a, "b" := b];
    var start, r := Raw("a", m), Writers(urls);
    var rm, choose := CliRemove("b", false), CliSetDefault("b");
    RaceOutcomes(urls, a, b);
    WritersAre(urls, rm, start);
    WritersAre(urls, choose, start);
    WritersAre(urls, rm, Raw("b", m));
    RunNothing(Init(start), r);
    RunThen(Init(start), r, [], Start(1, rm));
    var t1: seq<Step<Job>> := [] + [Start(1, rm)];
    RunThen(Init(start), r, t1, Look(1));
    var t2 := t1 + [Look(1)];
    RunThen(Init(start), r, t2, Start(2, choose));
    var t3 := t2 + [Start(2, choose)];
    LockedTurn(Init(start), r, t3, 2);
    var t4 := t3 + [Acquire(2)] + [Reload(2)] + [Commit(2, true)] + [Release(2)];
    LockedTurn(Init(start), r, t4, 1);
    steps := t4 + [Acquire(1)] + [Reload(1)] + [Commit(1, true)] + [Release(1)];
    assert m - {"b"} == map["a" := a];
  }

  lemma {:induction false} RaceOutcomes(urls: Urls, a: Profile, b: Profile)
    requires ProfileOk("a", a, urls) && ProfileOk("b", b, urls) && a.aliases == b.aliases == map[]
    ensures var m := map["a" := a, "b" := b];
            && GoesOn(CliRemove("b", false), Raw("a", m), urls)
            && Outcome(CliSetDefault("b"), Raw("a", m), urls) == Ok(Raw("b", m))
            && Outcome(CliRemove("b", false), Raw("b", m), urls) == Ok(Raw(INHERIT_ENV, m - {"b"}))
  {
    hide ProfileOk, TrimSpace, Coerces, Read, Valid;
    var m := map["a" := a, "b" := b];
    TwoProfilesLoad("a", urls, a, b);
    TwoProfilesLoad("b", urls, a, b);
    assert NameOk("b") by { Trimmed("b"); }
    OneProfileValid(urls, a, m - {"b"});
  }

  lemma {:induction false} TwoProfilesLoad(dflt: string, urls: Urls, a: Profile, b: Profile)
    requires ProfileOk("a", a, urls) && ProfileOk("b", b, urls) && a.aliases == b.aliases == map[] && dflt in {"a", "b"}
    ensures var f := File(dflt, map["a" := a, "b" := b]);
            Valid(f, urls) && Load(Encoded(f), urls) == Ok(Some(f))
  {
    hide ProfileOk, TrimSpace, Coerces, Read, Tidy;
    NoAliasesCoerce();
    Trimmed(dflt);
    EncodedLoads(File(dflt, map["a" := a, "b" := b]), urls);
  }

  lemma {:induction false} OneProfileValid(urls: Urls, a: Profile, m: map<string, Profile>)
    requires ProfileOk("a", a, urls) && m.Keys == {"a"} && m["a"] == a
    ensures Valid(File(INHERIT_ENV, m), urls)
  {
    hide ProfileOk, TrimSpace;
    Trimmed(INHERIT_ENV);
  }
}

/** The writers of profiles.json, as methods on the state directory that holds it. A
    method runs with the lock held, so nothing else writes meanwhile; the file system
    may refuse a write, and then the old file is still there. */
module ProfileStore {
  import opened Prelude
  import opened Text
  import opened ModelAlias
  import opened Profiles
  import opened ProfileEdits
  import ProfileEffects
  import Jobs = SharedProfiles

  /** What a loadable or missing file gives a writer to work on. */
  ghost function Loaded(d: Disk, urls: Urls): Option<File> {
    if Load(d, urls).Ok? then Load(d, urls).value else None
  }

  /** What every load-check-write writer does to the disk: either the edited file is valid
      and written, or nothing changes and the refusal says why. */
  ghost predicate Wrote(
      urls: Urls, before: Disk, after: Disk, r: Result<File, Refusal>, writable: bool, e: Option<Refusal>)
  {
    && (e == None <==> Load(before, urls).Ok? && r.Ok? && Valid(r.value, urls) && writable)
    && after == (if e == None then Encoded(r.value) else before)
    && (Load(before, urls).Ok? && r.Err? ==> e == Some(r.error))
    && (Load(before, urls).Ok? && r.Ok? && !Valid(r.value, urls) ==> e == Some(Rejected))
  }

  /** A method is the job of its name: it does to the disk what the job does to the shared
      file, and refuses what the job refuses. */
  ghost predicate Ran(urls: Urls, before: Disk, after: Disk, job: Jobs.Job, writable: bool, e: Option<Refusal>) {
    var r := Jobs.Outcome(job, before, urls);
    && (e == None <==> r.Ok? && writable) && after == (if e == None then r.value else before)
    && (Load(before, urls).Ok? && r.Err? ==> e == Some(r.error))
  }

  lemma {:induction false} WroteIsRan(urls: Urls, before: Disk, job: Jobs.Job, r: Result<File, Refusal>)
    requires !job.EnsureOfficial? && !job.Migrate? && r == Jobs.EditOf(job, Loaded(before, urls), urls)
    ensures forall after, writable, e :: Wrote(urls, before, after, r, writable, e) ==>
                                           Ran(urls, before, after, job, writable, e)
  {
    hide Valid, Load, Jobs.EditOf;
  }

  lemma {:induction false} AddIsRead(urls: Urls, before: Disk, req: AddRequest)
    ensures forall after, writable :: Wrote(urls, before, after, Added(Loaded(before, urls), req), writable, None)
                                      && Load(after, urls).Ok? ==>
                                        ProfileEffects.AddedReads(before, after, req, urls)
  {
    hide Valid, Load, Added, ProfileEffects.AddedReads;
    WroteIsRan(urls, before, Jobs.Add(req), Added(Loaded(before, urls), req));
    forall after, writable | Wrote(urls, before, after, Added(Loaded(before, urls), req), writable, None)
                             && Load(after, urls).Ok?
      ensures ProfileEffects.AddedReads(before, after, req, urls)
    {
      assert Ran(urls, before, after, Jobs.Add(req), writable, None);
      ProfileEffects.AddIsRead(before, req, urls);
    }
  }

  class StateDir {
    const urls: Urls
    var disk: Disk

    constructor (urls: Urls, disk: Disk)
      ensures this.urls == urls && this.disk == disk
    {
      this.urls := urls;
      this.disk := disk;
    }

    /** Validate, then replace the file in one step. */
    method Overwrite(f: File, writable: bool) returns (e: Option<Refusal>)
      modifies this
      ensures e == if !Valid(f, urls) then Some(Rejected) else if !writable then Some(NotWritten) else None
      ensures disk == if e == None then Encoded(f) else old(disk)
    {
      hide Valid;
      var items := Validate(f, urls);
      if items != [] {
        return Some(Rejected);
      }
      if !writable {
        return Some(NotWritten);
      }
      disk := Encoded(f);
      return None;
    }

    /** A link that fails when there is a file already, and no validation. */
    method WriteFresh(f: File, writable: bool) returns (e: Option<Refusal>)
      modifies this
      ensures e == None <==> old(disk) == Missing && writable
      ensures disk == if e == None then Encoded(f) else old(disk)
    {
      if !writable || disk != Missing {
        return Some(NotWritten);
      }
      disk := Encoded(f);
      return None;
    }

    method Finish(r: Result<File, Refusal>, writable: bool) returns (e: Option<Refusal>)
      modifies this
      ensures e == if r.Err? then Some(r.error) else if !Valid(r.value, urls) then Some(Rejected)
                   else if !writable then Some(NotWritten) else None
      ensures disk == if e == None then Encoded(r.value) else old(disk)
    {
      if r.Err? {
        return Some(r.error);
      }
      e := Overwrite(r.value, writable);
    }

    method Add(req: AddRequest, writable: bool) returns (e: Option<Refusal>)
      modifies this
      ensures Wrote(urls, old(disk), disk, Added(Loaded(old(disk), urls), req), writable, e)
      ensures Ran(urls, old(disk), disk, Jobs.Add(req), writable, e)
      ensures e == None && Load(disk, urls).Ok? ==> ProfileEffects.AddedReads(old(disk), disk, req, urls)
    {
      hide Valid, NameOk, Ran, ProfileEffects.AddedReads;
      WroteIsRan(urls, disk, Jobs.Add(req), Added(Loaded(disk, urls), req));
      AddIsRead(urls, disk, req);
      if !NameOk(req.name) || Blank(req.profile.baseURL) {
        return Some(Usage);
      }
      var mode := Lowered(req.profile.egress.mode);
      if mode != "" && mode != "http" && !Blank(req.profile.egress.url) {
        return Some(Rejected);
      }
      var loaded := Load(disk, urls);
      if loaded.Err? {
        return Some(NotWritten);
      }
      var f := if loaded.value.Some? then loaded.value.value else File(OFFICIAL, map[OFFICIAL := OFFICIAL_PROFILE]);
      if req.name in f.profiles {
        return Some(Conflict);
      }
      f := f.(profiles := f.profiles[req.name := req.profile]);
      if req.setDefault {
        f := f.(dflt := req.name);
      }
      e := Finish(Ok(f), writable);
    }

    method PatchAuthBlock(auth: Option<Auth>, mode: Option<string>, source: KeySource)
      returns (r: Result<Auth, Refusal>)
      ensures r == if source.UnknownSource? then Err(Rejected) else Ok(PatchedAuth(auth, mode, source))
    {
      var a := if auth.Some? then auth.value else Auth("", "", "");
      if mode.Some? {
        a := a.(mode := mode.value);
      }
      match source {
        case Unchanged =>
        case InlineKey(k) => a := a.(key := k, keyEnv := "");
        case EnvKey(n) => a := a.(key := "", keyEnv := n);
        case UnknownSource => return Err(Rejected);
      }
      return Ok(a);
    }

    method ApplyAuth(auth: Option<Auth>, e: AuthEdit) returns (r: Result<Option<Auth>, Refusal>)
      ensures r == EditedAuth(auth, e)
    {
      hide PatchedAuth;
      match e {
        case KeepAuth => return Ok(auth);
        case RemoveAuth => return Ok(None);
        case MalformedAuth => return Err(Rejected);
        case PatchAuth(mode, source) =>
          var a := PatchAuthBlock(auth, mode, source);
          return if a.Ok? then Ok(Some(a.value)) else Err(a.error);
      }
    }

    method MoveEgress(e: Egress, mode: Option<string>) returns (moved: Egress)
      ensures moved == match mode
                       case None => e
                       case Some(m) => Egress(m, if BearsURL(Lowered(m)) then e.url else "")
    {
      hide Lowered;
      moved := e;
      if mode.Some? {
        moved := moved.(mode := mode.value);
        if !BearsURL(Lowered(mode.value)) {
          moved := moved.(url := "");
        }
      }
    }

    method ApplyEgress(e: Egress, mode: Option<string>, url: Option<string>) returns (r: Result<Egress, Refusal>)
      ensures r == EditedEgress(e, mode, url)
    {
      hide Lowered, TrimSpace;
      var moved := MoveEgress(e, mode);
      if url.Some? {
        var lowered := Lowered(moved.mode);
        if lowered != "" && !BearsURL(lowered) && !Blank(url.value) {
          return Err(Rejected);
        }
        moved := moved.(url := url.value);
      }
      return Ok(moved);
    }

    /** The edit is applied to a copy of the profile, field by field; one that fails half
        way leaves the copy behind, not the file. A field the request does not carry stays as
        it was, one it carries has the value given, a key from one source leaves none from
        the other, and a mode without a proxy leaves no proxy URL. */
    method ApplyEdit(p: Profile, req: EditRequest) returns (r: Result<Profile, Refusal>)
      ensures r == EditedProfile(p, req)
      ensures r.Err? <==>
              || req.auth.MalformedAuth? || (req.auth.PatchAuth? && req.auth.source.UnknownSource?)
              || (req.egressURL.Some? && !Blank(req.egressURL.value)
                  && URLless(if req.egressMode.Some? then req.egressMode.value else p.egress.mode))
      ensures r.Ok? ==> EditKeeps(p, req, r.value) && EditSets(req, r.value)
      ensures r.Ok? && req.egressMode.Some? && URLless(req.egressMode.value) ==> Blank(r.value.egress.url)
    {
      hide EditedAuth, EditedEgress, EditKeeps, EditSets, Lowered, TrimSpace;
      EditDoes(p, req);
      var q := p;
      if req.provider.Some? {
        q := q.(provider := req.provider.value);
      }
      if req.baseURL.Some? {
        q := q.(baseURL := req.baseURL.value);
      }
      var auth := ApplyAuth(p.auth, req.auth);
      if auth.Err? {
        return Err(auth.error);
      }
      q := q.(auth := auth.value);
      if req.aliases.Some? {
        q := q.(aliases := req.aliases.value);
      }
      var egress := ApplyEgress(p.egress, req.egressMode, req.egressURL);
      if egress.Err? {
        return Err(egress.error);
      }
      return Ok(q.(egress := egress.value));
    }

    method Edit(req: EditRequest, writable: bool) returns (e: Option<Refusal>)
      modifies this
      ensures Wrote(urls, old(disk), disk, Edited(Loaded(old(disk), urls), req), writable, e)
      ensures Ran(urls, old(disk), disk, Jobs.Edit(req), writable, e)
    {
      hide Valid, NameOk, EditedProfile, Ran;
      WroteIsRan(urls, disk, Jobs.Edit(req), Edited(Loaded(disk, urls), req));
      if !NameOk(req.name) {
        return Some(Usage);
      }
      var loaded := Load(disk, urls);
      if loaded.Err? {
        return Some(NotWritten);
      }
      if loaded.value.None? || req.name !in loaded.value.value.profiles {
        return Some(NotFound);
      }
      var f := loaded.value.value;
      var p := ApplyEdit(f.profiles[req.name], req);
      if p.Err? {
        return Some(p.error);
      }
      f := f.(profiles := f.profiles[req.name := p.value]);
      if req.setDefault {
        f := f.(dflt := req.name);
      }
      e := Finish(Ok(f), writable);
    }

    /** The names are collected and the first in order wins. */
    method ChooseFallbackDefault(profiles: map<string, Profile>) returns (d: string)
      ensures d == Fallback(profiles.Keys)
    {
      hide LessEq;
      if OFFICIAL in profiles {
        FallbackUnique(OFFICIAL, profiles.Keys);
        return OFFICIAL;
      }
      if profiles.Keys == {} {
        FallbackUnique(INHERIT_ENV, profiles.Keys);
        return INHERIT_ENV;
      }
      d :| d in profiles;
      LessEqTotal(d, d);
      var rest := profiles.Keys - {d};
      while rest != {}
        invariant rest <= profiles.Keys && IsLeast(d, profiles.Keys - rest)
        decreases |rest|
      {
        var n :| n in rest;
        LessEqTotal(d, n);
        LessEqTotal(n, n);
        if !LessEq(d, n) {
          forall m | m in profiles.Keys - rest ensures LessEq(n, m) {
            LessEqTransitive(n, d, m);
          }
          d := n;
        }
        rest := rest - {n};
      }
      assert profiles.Keys - rest == profiles.Keys;
      FallbackUnique(d, profiles.Keys);
    }

    method Remove(name: string, confirm: string, writable: bool) returns (e: Option<Refusal>)
      modifies this
      ensures Wrote(urls, old(disk), disk, Removed(Loaded(old(disk), urls), name, confirm), writable, e)
      ensures Ran(urls, old(disk), disk, Jobs.Remove(name, confirm), writable, e)
    {
      hide Valid, NameOk, Fallback, TrimSpace, Ran;
      WroteIsRan(urls, disk, Jobs.Remove(name, confirm), Removed(Loaded(disk, urls), name, confirm));
      if !NameOk(name) || TrimSpace(confirm) != name {
        return Some(Usage);
      }
      var loaded := Load(disk, urls);
      if loaded.Err? {
        return Some(NotWritten);
      }
      if loaded.value.None? || name !in loaded.value.value.profiles {
        return Some(NotFound);
      }
      var f := loaded.value.value;
      f := f.(profiles := f.profiles - {name});
      if name == f.dflt {
        var d := ChooseFallbackDefault(f.profiles);
        f := f.(dflt := d);
      }
      e := Finish(Ok(f), writable);
    }

    method SetDefault(name: string, writable: bool) returns (e: Option<Refusal>)
      modifies this
      ensures Wrote(urls, old(disk), disk, DefaultSet(Loaded(old(disk), urls), name), writable, e)
      ensures Ran(urls, old(disk), disk, Jobs.SetDefault(name), writable, e)
    {
      hide Valid, NameOk, Ran;
      WroteIsRan(urls, disk, Jobs.SetDefault(name), DefaultSet(Loaded(disk, urls), name));
      if !NameOk(name) {
        return Some(Usage);
      }
      var loaded := Load(disk, urls);
      if loaded.Err? {
        return Some(NotWritten);
      }
      if loaded.value.None? {
        return Some(NotFound);
      }
      var f := loaded.value.value;
      if name == INHERIT_ENV {
        f := f.(dflt := OFFICIAL);
        if OFFICIAL !in f.profiles {
          f := f.(profiles := f.profiles[OFFICIAL := OFFICIAL_PROFILE]);
        }
      } else if name in f.profiles {
        f := f.(dflt := name);
      } else {
        return Some(NotFound);
      }
      e := Finish(Ok(f), writable);
    }

    method SetModelDefault(name: string, target: string, writable: bool) returns (e: Option<Refusal>)
      modifies this
      ensures Wrote(urls, old(disk), disk, ModelDefaultSet(Loaded(old(disk), urls), name, target), writable, e)
      ensures Ran(urls, old(disk), disk, Jobs.SetModelDefault(name, target), writable, e)
    {
      hide Valid, Acceptable, WellFormed, Cleans, Ran;
      WroteIsRan(urls, disk, Jobs.SetModelDefault(name, target), ModelDefaultSet(Loaded(disk, urls), name, target));
      var loaded := Load(disk, urls);
      if loaded.Err? {
        return Some(NotWritten);
      }
      if loaded.value.None? || name !in loaded.value.value.profiles {
        return Some(NotFound);
      }
      var f := loaded.value.value;
      var p := f.profiles[name];
      p := p.(aliases := p.aliases[DEFAULT_KEY := target]);
      var table := New(p.aliases, true);
      if table.Err? {
        return Some(Rejected);
      }
      f := f.(profiles := f.profiles[name := p]);
      e := Finish(Ok(f), writable);
    }

    /** Every launch. */
    method EnsureOfficial(writable: bool) returns (e: Option<Refusal>)
      modifies this
      ensures e == None <==> Ensured(old(disk), urls).Ok? && (writable || Ensured(old(disk), urls).value == old(disk))
      ensures disk == if e == None then Ensured(old(disk), urls).value else old(disk)
      ensures Jobs.Outcome(Jobs.EnsureOfficial, old(disk), urls) == Ensured(old(disk), urls)
    {
      hide Valid;
      match disk {
        case Missing =>
          e := WriteFresh(File(OFFICIAL, map[OFFICIAL := OFFICIAL_PROFILE]), writable);
        case Corrupt => return Some(Rejected);
        case Raw(_, _) =>
          var f := Decoded(disk);
          ghost var was := f;
          var changed := false;
          if f.dflt == INHERIT_ENV {
            f := f.(dflt := OFFICIAL);
            changed := true;
          }
          if OFFICIAL !in f.profiles {
            f := f.(profiles := f.profiles[OFFICIAL := OFFICIAL_PROFILE]);
            changed := true;
          }
          assert changed <==> f != was;
          if !changed {
            return None;
          }
          assert Encoded(f) != disk;
          e := Overwrite(f, writable);
      }
    }

    method CliAdd(o: Flags, writable: bool) returns (e: Option<Refusal>)
      modifies this
      ensures Wrote(urls, old(disk), disk, CliAdded(Loaded(old(disk), urls), o), writable, e)
      ensures Ran(urls, old(disk), disk, Jobs.CliAdd(o), writable, e)
    {
      hide Valid, AddFlagsOk, Ran;
      WroteIsRan(urls, disk, Jobs.CliAdd(o), CliAdded(Loaded(disk, urls), o));
      if !AddFlagsOk(o) {
        return Some(Usage);
      }
      var loaded := Load(disk, urls);
      if loaded.Err? {
        return Some(NotWritten);
      }
      var f := if loaded.value.Some? then loaded.value.value else File(INHERIT_ENV, map[]);
      if o.name in f.profiles {
        return Some(Conflict);
      }
      var auth := Auth(Given(o.authMode), "", "");
      match o.key {
        case NoKeyFlag =>
        case KeyFlag(k) => auth := auth.(key := k);
        case KeyEnvFlag(n) => auth := auth.(keyEnv := n);
        case KeyStdin(read) =>
          if read.None? {
            return Some(NotWritten);
          }
          auth := auth.(key := read.value);
      }
      var p := Profile(Given(o.provider), Given(o.baseURL), Some(auth), GivenTable(o.aliases), GivenTable(o.headers),
                       Egress(Given(o.egressMode), Given(o.egressURL)));
      f := f.(profiles := f.profiles[o.name := p]);
      if o.setDefault {
        f := f.(dflt := o.name);
      }
      e := Finish(Ok(f), writable);
    }

    method ApplyAuthFlags(auth: Option<Auth>, o: Flags) returns (r: Result<Option<Auth>, Refusal>)
      ensures r == CliEditedAuth(auth, o)
    {
      hide Lowered, PatchedAuth;
      if o.authMode.Some? && Lowered(o.authMode.value) == "passthrough" {
        return Err(Usage);
      }
      if o.authMode.None? && o.key.NoKeyFlag? {
        return Ok(auth);
      }
      var source := Unchanged;
      match o.key {
        case NoKeyFlag =>
        case KeyFlag(k) => source := InlineKey(k);
        case KeyEnvFlag(n) => source := EnvKey(n);
        case KeyStdin(read) =>
          if read.None? {
            return Err(NotWritten);
          }
          source := InlineKey(read.value);
      }
      var a := PatchAuthBlock(auth, o.authMode, source);
      return Ok(Some(a.value));
    }

    /** The same by flags: aliases and headers that no flag names survive. */
    method ApplyEditOpts(p: Profile, o: Flags) returns (r: Result<Profile, Refusal>)
      ensures r == CliEditedProfile(p, o)
      ensures r.Err? <==>
              || (o.authMode.Some? && Lowered(o.authMode.value) == "passthrough")
              || (o.key.KeyStdin? && o.key.read.None?)
      ensures r.Ok? ==>
                && MergedInto(r.value.aliases, p.aliases, GivenTable(o.aliases))
                && MergedInto(r.value.headers, p.headers, GivenTable(o.headers))
                && FlagsKeep(p, o, r.value) && FlagsSet(o, r.value)
      ensures r.Ok? && o.egressMode.Some? && !BearsURL(Lowered(o.egressMode.value)) && o.egressURL.None? ==>
                r.value.egress.url == ""
    {
      hide CliEditedAuth, MergedInto, FlagsKeep, FlagsSet, Lowered;
      CliEditDoes(p, o);
      var q := p;
      if o.provider.Some? {
        q := q.(provider := o.provider.value);
      }
      if o.baseURL.Some? {
        q := q.(baseURL := o.baseURL.value);
      }
      var auth := ApplyAuthFlags(p.auth, o);
      if auth.Err? {
        return Err(auth.error);
      }
      var egress := MoveEgress(p.egress, o.egressMode);
      if o.egressURL.Some? {
        egress := egress.(url := o.egressURL.value);
      }
      return Ok(q.(auth := auth.value, egress := egress,
                   aliases := q.aliases + GivenTable(o.aliases), headers := q.headers + GivenTable(o.headers)));
    }

    method CliEdit(o: Flags, writable: bool) returns (e: Option<Refusal>)
      modifies this
      ensures Wrote(urls, old(disk), disk, CliEdited(Loaded(old(disk), urls), o), writable, e)
      ensures Ran(urls, old(disk), disk, Jobs.CliEdit(o), writable, e)
    {
      hide Valid, FlagsOk, CliEditedProfile, Ran;
      WroteIsRan(urls, disk, Jobs.CliEdit(o), CliEdited(Loaded(disk, urls), o));
      if !FlagsOk(o) {
        return Some(Usage);
      }
      var loaded := Load(disk, urls);
      if loaded.Err? {
        return Some(NotWritten);
      }
      if loaded.value.None? || o.name !in loaded.value.value.profiles {
        return Some(NotFound);
      }
      var f := loaded.value.value;
      var p := ApplyEditOpts(f.profiles[o.name], o);
      if p.Err? {
        return Some(p.error);
      }
      f := f.(profiles := f.profiles[o.name := p.value]);
      if o.setDefault {
        f := f.(dflt := o.name);
      }
      e := Finish(Ok(f), writable);
    }

    /** The part of `rm` under the lock. */
    method CliRemove(name: string, writable: bool) returns (e: Option<Refusal>)
      modifies this
      ensures Wrote(urls, old(disk), disk, CliRemoved(Loaded(old(disk), urls), name), writable, e)
      ensures Ran(urls, old(disk), disk, Jobs.CliRemove(name, false), writable, e)
    {
      hide Valid, NameOk, Ran;
      WroteIsRan(urls, disk, Jobs.CliRemove(name, false), CliRemoved(Loaded(disk, urls), name));
      if !NameOk(name) {
        return Some(Usage);
      }
      var loaded := Load(disk, urls);
      if loaded.Err? {
        return Some(NotWritten);
      }
      if loaded.value.None? || name !in loaded.value.value.profiles {
        return Some(NotFound);
      }
      var f := loaded.value.value;
      f := f.(profiles := f.profiles - {name});
      if name == f.dflt {
        f := f.(dflt := INHERIT_ENV);
      }
      e := Finish(Ok(f), writable);
    }

    method CliSetDefault(name: string, writable: bool) returns (e: Option<Refusal>)
      modifies this
      ensures Wrote(urls, old(disk), disk, CliDefaultSet(Loaded(old(disk), urls), name), writable, e)
      ensures Ran(urls, old(disk), disk, Jobs.CliSetDefault(name), writable, e)
    {
      hide Valid, NameOk, Ran;
      WroteIsRan(urls, disk, Jobs.CliSetDefault(name), CliDefaultSet(Loaded(disk, urls), name));
      if !NameOk(name) {
        return Some(Usage);
      }
      var loaded := Load(disk, urls);
      if loaded.Err? {
        return Some(NotWritten);
      }
      if loaded.value.None? || (name != INHERIT_ENV && name !in loaded.value.value.profiles) {
        return Some(NotFound);
      }
      e := Finish(Ok(loaded.value.value.(dflt := name)), writable);
    }

    /** The tail of the first-run migration: the file is loaded again under the lock. */
    method Migrate(s: Seed, writable: bool) returns (e: Option<Refusal>)
      modifies this
      ensures var r := Migrated(Loaded(old(disk), urls), s, urls);
              && (e == None <==> Load(old(disk), urls).Ok? && r.Ok? && writable
                                 && (old(disk) == Missing || Valid(r.value, urls)))
              && disk == if e == None then Encoded(r.value) else old(disk)
      ensures Ran(urls, old(disk), disk, Jobs.Migrate(s), writable, e)
    {
      hide Valid, Migratable, SeedProfile, HasBaseURL, Read, AllCoerce;
      if !Migratable(s, urls) {
        return Some(Usage);
      }
      var loaded := Load(disk, urls);
      if loaded.Err? {
        return Some(NotWritten);
      }
      if loaded.value.None? {
        e := WriteFresh(File(s.name, map[s.name := SeedProfile(s)]), writable);
        return;
      }
      var f := loaded.value.value;
      if HasBaseURL(f, s.baseURL) {
        return Some(Conflict);
      }
      if s.name in f.profiles {
        return Some(Conflict);
      }
      e := Finish(Ok(f.(profiles := f.profiles[s.name := SeedProfile(s)])), writable);
    }
  }
}

/** The store (internal/config/store.go): load, poll and save around one file. */
module Store {
  import opened Text
  import opened Config
  import opened Validation
  import opened Files

  /** The environment variables that seed a file, already read and split. */
  datatype Env = Env(listen: string, sharedKey: string, initial: seq<Peer>)

  /** The text format, the content hash and the environment. */
  datatype World = World(
    render: File -> string,
    parse: string -> Option<File>,
    hash: string -> string,
    env: Env)

  /** A file as the store publishes it: accepted, with nothing left to fill in. */
  ghost predicate Good(f: File) {
    Accepts(f) && Normalised(f) == f
  }

  /** Parsing undoes printing for published files, and hashes tell texts apart. */
  ghost predicate Lawful(w: World) {
    (forall f :: Good(f) ==> w.parse(w.render(f)) == Some(f))
    && (forall s, t :: w.hash(s) == w.hash(t) ==> s == t)
  }

  /** Existing values win over the environment. */
  function Seeded(f: File, env: Env): File {
    f.(peers := f.peers.(
       listen := if f.peers.listen == "" then env.listen else f.peers.listen,
       sharedKey := if f.peers.sharedKey == "" then env.sharedKey else f.peers.sharedKey,
       list := if f.peers.list == [] then env.initial else f.peers.list))
  }

  /** A value in the file wins; the environment stands in for a missing one, and touches
      nothing else. */
  lemma SeedingFillsGaps(f: File, env: Env)
    ensures var g := Seeded(f, env);
            && (f.peers.listen != "" ==> g.peers.listen == f.peers.listen)
            && (f.peers.listen == "" ==> g.peers.listen == env.listen)
            && (f.peers.sharedKey != "" ==> g.peers.sharedKey == f.peers.sharedKey)
            && (f.peers.sharedKey == "" ==> g.peers.sharedKey == env.sharedKey)
            && (f.peers.list != [] ==> g.peers.list == f.peers.list)
            && (f.peers.list == [] ==> g.peers.list == env.initial)
            && g.peers.syncIntervalSeconds == f.peers.syncIntervalSeconds
            && g.peers.clockSkewSeconds == f.peers.clockSkewSeconds
            && g == f.(peers := g.peers)
  {
  }

  /** What a text on disk means: parsed, seeded, accepted and normalised. */
  ghost function Read(w: World, text: string): Option<File> {
    var p := w.parse(text);
    if p.Some? && Accepts(Seeded(p.value, w.env)) then Some(Normalised(Seeded(p.value, w.env))) else None
  }

  lemma ReadIsGood(w: World, text: string)
    ensures Read(w, text).Some? ==> Good(Read(w, text).value)
  {
    var p := w.parse(text);
    if p.Some? && Accepts(Seeded(p.value, w.env)) {
      ValidationIsFixedPoint(Seeded(p.value, w.env));
    }
  }

  /** What is read is the parsed text with gaps filled, first from the environment and then
      with the built-in values; items and switches are the text's. */
  lemma ReadFillsGaps(w: World, text: string)
    requires Read(w, text).Some?
    ensures w.parse(text).Some?
    ensures var g, f := w.parse(text).value, Read(w, text).value;
            && f.peers.sharedKey == (if g.peers.sharedKey != "" then g.peers.sharedKey else w.env.sharedKey)
            && f.peers.list == (if g.peers.list != [] then g.peers.list else w.env.initial)
            && f.peers.listen == (if g.peers.listen != "" then g.peers.listen
                                  else if w.env.listen != "" then w.env.listen else "0.0.0.0:8443")
            && f.settings == SettingsWithDefaults(g.settings) && f.doNotSyncSettings == g.doNotSyncSettings
            && f.zones == g.zones && f.records == g.records && f.defaults == WithPorts(g.defaults)
            && f.updated == g.updated && f.updatedBy == g.updatedBy
  {
  }

  lemma SeedingKeepsAcceptance(f: File, env: Env)
    ensures Accepts(f) <==> Accepts(Seeded(f, env))
  {
    var g := Seeded(f, env);
    assert g.defaults == f.defaults && g.zones == f.zones && g.records == f.records;
    assert HasRoute(f) <==> HasRoute(g);
  }

  /** The text of a published file is always readable. */
  lemma PrintedIsReadable(w: World, f: File)
    requires Lawful(w) && Good(f)
    ensures Read(w, w.render(f)).Some?
  {
    SeedingKeepsAcceptance(f, w.env);
  }

  // ----- the built-in file

  function DefaultConfig(now: Time): File {
    File(CURRENT_VERSION, 0, "",
         Settings(1000, false, false, "0.0.0.0:80", "0.0.0.0:53", 10),
         Peers("0.0.0.0:8443", "", 300, 300, []),
         false,
         [UpstreamDefault("168.63.129.16", 53, true, "Azure DNS", Meta(false, [], now, "bootstrap", false))],
         [], [], false)
  }

  lemma FourOctets(a: string, b: string, c: string, d: string)
    requires IsOctet(a) && IsOctet(b) && IsOctet(c) && IsOctet(d)
    ensures MatchesIPv4(a + "." + (b + "." + (c + "." + d)))
  {
    SplitPiece(a, b + "." + (c + "." + d), '.');
    SplitPiece(b, c + "." + d, '.');
    SplitPiece(c, d, '.');
    SplitPiece(d, "", '.');
  }

  lemma DefaultAddressMatches()
    ensures MatchesIPv4("168.63.129.16")
  {
    FourOctets("168", "63", "129", "16");
    assert "168" + "." + ("63" + "." + ("129" + "." + "16")) == "168.63.129.16";
  }

  /** The file written on first start is one the store would accept. */
  lemma BootstrapIsGood(now: Time, env: Env, updated: Time, actor: string)
    ensures Good(DefaultConfig(now))
    ensures Good(Seeded(DefaultConfig(now), env).(updated := updated, updatedBy := actor))
  {
    DefaultAddressMatches();
    var f := DefaultConfig(now);
    var g := Seeded(f, env).(updated := updated, updatedBy := actor);
    assert Serves(f.defaults[0]) && Serves(g.defaults[0]);
    assert WithPorts(f.defaults) == f.defaults;
    assert AddressOk(f.defaults[0]) && PortOk(f.defaults[0]);
    assert Accepts(f) && Accepts(g);
  }

  /** The built-in file forwards everything to one upstream, answers on the usual ports
      and knows no peers. */
  lemma BuiltInSays(now: Time)
    ensures var f := DefaultConfig(now);
            && f.version == 1 && !f.nilDefaults && f.zones == [] && f.records == [] && !f.doNotSyncSettings
            && |f.defaults| == 1 && f.defaults[0].address == "168.63.129.16" && f.defaults[0].port == 53
            && f.defaults[0].enabled && !f.defaults[0].meta.deleted && !f.defaults[0].meta.doNotSync
            && f.defaults[0].meta.updatedAt == now && f.defaults[0].meta.updatedBy == "bootstrap"
            && f.settings == SettingsWithDefaults(Settings(0, false, false, "", "", 0))
            && f.peers == PeersWithDefaults(Peers("", "", 0, 0, []))
  {
  }

  /** The file written on first start. */
  function Bootstrapped(now: Time, env: Env): File {
    Seeded(DefaultConfig(now), env).(updated := now, updatedBy := "bootstrap")
  }

  /** The environment's peer settings are in it from the start. */
  lemma BootstrappedSays(now: Time, env: Env)
    ensures var f := Bootstrapped(now, env);
            && f.peers.sharedKey == env.sharedKey && f.peers.list == env.initial
            && f.updated == now && f.updatedBy == "bootstrap" && f.defaults == DefaultConfig(now).defaults
  {
  }

  // ----- polling

  datatype Loaded = Loaded(current: Option<File>, hash: string)

  /** One poll that read `data`, or could not read. */
  ghost function Poll(w: World, st: Loaded, data: Option<string>): Loaded {
    if data.None? || w.hash(data.value) == st.hash || Read(w, data.value).None? then st
    else Loaded(Read(w, data.value), w.hash(data.value))
  }

  ghost function PollAll(w: World, st: Loaded, ds: seq<Option<string>>): Loaded {
    if ds == [] then st else Poll(w, PollAll(w, st, ds[..|ds| - 1]), ds[|ds| - 1])
  }

  /** The most recent content that parsed and was accepted. */
  ghost function LastGood(w: World, first: string, ds: seq<Option<string>>): string {
    if ds == [] then first
    else
      var d := ds[|ds| - 1];
      if d.Some? && Read(w, d.value).Some? then d.value else LastGood(w, first, ds[..|ds| - 1])
  }

  /** After a load, over any contents the poller meets, the store shows the last
      good one; unreadable, unparsable and refused contents leave no trace. */
  lemma {:induction false} PollKeepsLastGood(w: World, first: string, ds: seq<Option<string>>)
    requires Lawful(w) && Read(w, first).Some?
    ensures Read(w, LastGood(w, first, ds)).Some?
    ensures PollAll(w, Loaded(Read(w, first), w.hash(first)), ds)
         == Loaded(Read(w, LastGood(w, first, ds)), w.hash(LastGood(w, first, ds)))
  {
    if ds != [] {
      PollKeepsLastGood(w, first, ds[..|ds| - 1]);
    }
  }

  // ----- saving

  /** The file that one save would publish on top of `base`. */
  ghost function SaveOn(base: File, mutate: File -> Option<File>, now: Time, actor: string): Option<File> {
    var d := mutate(CloneOf(base));
    if d.None? then None else Finish(d.value, now, actor)
  }

  lemma FinishIsGood(draft: File, now: Time, actor: string)
    ensures Finish(draft, now, actor).Some? ==> Good(Finish(draft, now, actor).value)
  {
    var d := StampFile(draft.(updated := now, updatedBy := actor, version := CURRENT_VERSION), now, actor);
    if Accepts(d) {
      ValidationIsFixedPoint(d);
    }
  }

  /** Which of the system calls succeed, and whether the lock file is free. */
  datatype Io = Io(mkdir: bool, open: bool, lockFree: bool, marshal: bool, write: bool, rename: bool, unlock: bool)

  datatype SaveError = IoFailed | ErrLocked | MutationFailed | Invalid(p: Problem)

  datatype SaveResult = Saved(f: File) | Failed(e: SaveError)

  /** All that must go well for the rename to happen. */
  ghost predicate Commits(base: File, mutate: File -> Option<File>, now: Time, actor: string, io: Io) {
    io.mkdir && io.open && io.lockFree && SaveOn(base, mutate, now, actor).Some?
    && io.marshal && io.write && io.rename
  }

  /** The part of a save between reading the published file and writing: works on a
      copy, so the published object keeps its value. */
  method BuildDraft(base: ConfigFile, mutate: File -> Option<File>, now: Time, actor: string)
    returns (draft: ConfigFile?, e: SaveError)
    ensures draft != null <==> SaveOn(base.Snapshot(), mutate, now, actor).Some?
    ensures draft != null ==>
            fresh(draft) && draft.Snapshot() == SaveOn(base.Snapshot(), mutate, now, actor).value
            && Good(draft.Snapshot())
    ensures draft == null ==> e != ErrLocked
  {
    e := MutationFailed;
    draft := base.Clone();
    var m := mutate(draft.Snapshot());
    if m.None? { return null, e; }
    FinishIsGood(m.value, now, actor);
    draft.Assign(m.value.(updated := now, updatedBy := actor, version := CURRENT_VERSION));
    draft.StampItems(now, actor);
    var problem := draft.Validate();
    if problem.Some? { return null, Invalid(problem.value); }
  }

  class ConfigStore {
    const world: World
    var disk: Option<string>
    var current: ConfigFile?
    var hash: string
    var loadErr: bool

    /** What is published is nothing or a good file. */
    ghost predicate Valid()
      reads this, current
    {
      current != null ==> Good(current.Snapshot())
    }

    ghost function State(): Loaded
      reads this, current
    {
      Loaded(if current == null then None else Some(current.Snapshot()), hash)
    }

    constructor (w: World)
      ensures Valid() && world == w && current == null && disk == None && hash == ""
    {
      world := w;
      disk, current, hash, loadErr := None, null, "", false;
    }

    /** Parses, seeds and validates a text. */
    method Parse(text: string) returns (f: ConfigFile?)
      ensures f != null <==> Read(world, text).Some?
      ensures f != null ==> fresh(f) && f.Snapshot() == Read(world, text).value && Good(f.Snapshot())
    {
      var p := world.parse(text);
      if p.None? { return null; }
      f := new ConfigFile(Seeded(p.value, world.env));
      ReadIsGood(world, text);
      var problem := f.Validate();
      if problem.Some? { return null; }
    }

    /** The built-in file is published, and its text is on disk. */
    ghost predicate Created(now: Time)
      reads this, current
    {
      var f := Bootstrapped(now, world.env);
      var text := world.render(f);
      disk == Some(text) && State() == Loaded(Some(f), world.hash(text))
    }

    /** Writes a good file and publishes it. */
    method Install(f: File)
      requires Good(f)
      modifies this
      ensures Valid() && !loadErr
      ensures disk == Some(world.render(f)) && State() == Loaded(Some(f), world.hash(world.render(f)))
    {
      var out := world.render(f);
      disk := Some(out);
      current := new ConfigFile(f);
      hash := world.hash(out);
      loadErr := false;
    }

    /** Creates the file that was missing. */
    method Bootstrap(now: Time, io: Io) returns (ok: bool)
      requires Valid() && disk.None?
      modifies this
      ensures Valid()
      ensures ok <==> io.mkdir && io.marshal && io.write
      ensures if ok then Created(now) && !loadErr else disk.None? && State() == old(State())
    {
      if !io.mkdir || !io.marshal || !io.write { return false; }
      BootstrapIsGood(now, world.env, now, "bootstrap");
      Install(Bootstrapped(now, world.env));
      return true;
    }

    /** Loads the file that is there; a bad one leaves things as they are. */
    method LoadExisting(readable: bool) returns (ok: bool)
      requires Valid() && disk.Some?
      modifies this`current, this`hash, this`loadErr
      ensures Valid()
      ensures ok <==> readable && Read(world, disk.value).Some?
      ensures State() == if ok then Loaded(Read(world, disk.value), world.hash(disk.value)) else old(State())
      ensures loadErr == !ok
    {
      loadErr := true;
      if !readable { return false; }
      var f := Parse(disk.value);
      if f == null { return false; }
      current := f;
      hash := world.hash(disk.value);
      loadErr := false;
      return true;
    }

    /** The first load. A missing file is created; a bad one leaves things as they are. */
    method Load(now: Time, readable: bool, io: Io) returns (ok: bool)
      requires Valid()
      modifies this
      ensures Valid()
      ensures old(disk).Some? ==>
              disk == old(disk) && (ok <==> readable && Read(world, disk.value).Some?)
              && State() == if ok then Loaded(Read(world, disk.value), world.hash(disk.value)) else old(State())
      ensures old(disk).None? ==>
              (ok <==> io.mkdir && io.marshal && io.write)
              && if ok then Created(now) else disk.None? && State() == old(State())
      ensures ok ==> disk.Some? && hash == world.hash(disk.value) && current != null && !loadErr
    {
      if disk.None? {
        ok := Bootstrap(now, io);
      } else {
        ok := LoadExisting(readable);
      }
    }

    /** One poll of the file. */
    method ReloadIfChanged(data: Option<string>) returns (changed: bool, ok: bool)
      requires Valid()
      modifies this`current, this`hash
      ensures Valid()
      ensures State() == Poll(world, old(State()), data)
      ensures changed <==> data.Some? && world.hash(data.value) != old(hash)
      ensures ok <==> data.Some? && (changed ==> Read(world, data.value).Some?)
    {
      if data.None? { return false, false; }
      var h := world.hash(data.value);
      if h == hash { return false, true; }
      var f := Parse(data.value);
      if f == null { return true, false; }
      current := f;
      hash := h;
      return true, true;
    }

    /** Clone, mutate, stamp, validate, write and publish. The published object is
        replaced, never edited: `modifies` names the store alone. */
    method Save(mutate: File -> Option<File>, now: Time, actor: string, io: Io) returns (r: SaveResult)
      requires Valid()
      modifies this`disk, this`current, this`hash
      ensures Valid()
      ensures var base := if old(current) == null then DefaultConfig(now) else old(State()).current.value;
              if Commits(base, mutate, now, actor, io) then
                var f := SaveOn(base, mutate, now, actor).value;
                && State() == Loaded(Some(f), world.hash(world.render(f)))
                && disk == Some(world.render(f)) && fresh(current)
                && r == if io.unlock then Saved(f) else Failed(IoFailed)
              else
                && r.Failed? && disk == old(disk) && current == old(current) && hash == old(hash)
                && State() == old(State())
      ensures r == Failed(ErrLocked) <==> io.mkdir && io.open && !io.lockFree
      ensures !(io.mkdir && io.open && io.lockFree && io.marshal && io.write && io.rename) ==>
              r.Failed? && disk == old(disk) && current == old(current) && hash == old(hash)
    {
      if !io.mkdir || !io.open { return Failed(IoFailed); }
      if !io.lockFree { return Failed(ErrLocked); }
      var cur := current;
      if cur == null {
        cur := new ConfigFile(DefaultConfig(now));
      }
      var draft, e := BuildDraft(cur, mutate, now, actor);
      if draft == null { return Failed(e); }
      if !io.marshal { return Failed(IoFailed); }
      var data := world.render(draft.Snapshot());
      if !io.write || !io.rename { return Failed(IoFailed); }
      disk := Some(data);
      current := draft;
      hash := world.hash(data);
      if !io.unlock { return Failed(IoFailed); }
      return Saved(draft.Snapshot());
    }
  }
}

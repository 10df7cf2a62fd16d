/**
 * `flynn release update`: merging an update release into an existing one
 * (the merge block of `runReleaseUpdate` in cli/release.go). The controller
 * calls around it (fetching the release, creating and deploying the result)
 * are outside the model: the existing release and the decoded update are
 * inputs, the merged release is the output.
 */
module ReleaseUpdate {
  import opened Wrappers

  /**
   * A Go map value. A nil map reads as empty; the source writes into maps in
   * place, and a write into a nil map panics in Go, so the model keeps nil apart
   * from an allocated map.
   */
  datatype GoMap<V> = Nil | Made(entries: map<string, V>) {
    /** The entries a Go program sees when it reads or ranges over the map. */
    function Items(): map<string, V> {
      if Nil? then map[] else entries
    }
  }

  /** A port a process type listens on. */
  datatype Port = Port(port: int, proto: string)

  /** The request and limit of one resource kind (memory, max_fd, ...). */
  datatype ResourceSpec = ResourceSpec(request: Option<int>, limit: Option<int>)

  /** A process type of a release (the fields the merge reads or writes). */
  datatype ProcessType = ProcessType(
    cmd: seq<string>,
    entrypoint: seq<string>,
    env: GoMap<string>,
    ports: seq<Port>,
    data: bool,
    omni: bool,
    hostNetwork: bool,
    service: string,
    resurrect: bool,
    resources: GoMap<ResourceSpec>)

  /** A release: artifacts, environment, metadata and process types. */
  datatype Release = Release(
    id: string,
    artifactIds: seq<string>,
    env: GoMap<string>,
    meta: GoMap<string>,
    processes: GoMap<ProcessType>)

  /** `r` is `base` overridden key by key with `upd`: no key is dropped, update values win. */
  ghost predicate IsOverride<V>(r: map<string, V>, base: map<string, V>, upd: map<string, V>) {
    && r.Keys == base.Keys + upd.Keys
    && (forall k :: k in upd ==> r[k] == upd[k])
    && (forall k :: k in base && k !in upd ==> r[k] == base[k])
  }

  /** `m[k] = v`, allocating the map first if it is nil. */
  function Assign<V>(m: GoMap<V>, k: string, v: V): (r: GoMap<V>)
    ensures r.Made? && r.Items() == m.Items()[k := v]
  {
    Made(m.Items()[k := v])
  }

  /**
   * The map after `for k, v := range src { dst[k] = v }`. A map that receives
   * no write stays as it was (possibly nil).
   */
  function Overlay<V>(dst: GoMap<V>, src: GoMap<V>): (r: GoMap<V>)
    ensures IsOverride(r.Items(), dst.Items(), src.Items())
    ensures src.Items() == map[] ==> r == dst
    ensures src.Items() != map[] ==> r.Made?
  {
    if src.Items() == map[] then dst else Made(dst.Items() + src.Items())
  }

  /** The process type after merging `u` into the existing `o` field by field. */
  function MergedProcess(o: ProcessType, u: ProcessType): (p: ProcessType)
    ensures IsOverride(p.env.Items(), o.env.Items(), u.env.Items())
    ensures IsOverride(p.resources.Items(), o.resources.Items(), u.resources.Items())
    ensures (o.data ==> p.data) && (o.omni ==> p.omni) && (o.hostNetwork ==> p.hostNetwork) && (o.resurrect ==> p.resurrect)
    ensures (u.data ==> p.data) && (u.omni ==> p.omni) && (u.hostNetwork ==> p.hostNetwork) && (u.resurrect ==> p.resurrect)
  {
    o.(
      cmd := if |u.cmd| > 0 then u.cmd else o.cmd,
      entrypoint := if |u.entrypoint| > 0 then u.entrypoint else o.entrypoint,
      env := Overlay(o.env, u.env),
      ports := if |u.ports| > 0 then u.ports else o.ports,
      data := o.data || u.data,
      omni := o.omni || u.omni,
      hostNetwork := o.hostNetwork || u.hostNetwork,
      service := if |u.service| > 0 then u.service else o.service,
      resurrect := o.resurrect || u.resurrect,
      resources := Overlay(o.resources, u.resources))
  }

  /** The entry for `k` after the process loop: merged if in both, else whichever side has it. */
  function MergedEntry(e: map<string, ProcessType>, u: map<string, ProcessType>, k: string): ProcessType
    requires k in e || k in u
  {
    if k !in u then e[k]
    else if k in e then MergedProcess(e[k], u[k])
    else u[k]
  }

  /** The process-type map after the loop over `updates.Processes`. */
  function MergedProcesses(e: GoMap<ProcessType>, u: GoMap<ProcessType>): (r: GoMap<ProcessType>)
    ensures r.Items().Keys == e.Items().Keys + u.Items().Keys
    ensures forall k :: k in u.Items() && k !in e.Items() ==> r.Items()[k] == u.Items()[k]
    ensures forall k :: k in e.Items() && k !in u.Items() ==> r.Items()[k] == e.Items()[k]
    ensures u.Items() == map[] ==> r == e
  {
    if u.Items() == map[] then e
    else Made(map k | k in e.Items().Keys + u.Items().Keys :: MergedEntry(e.Items(), u.Items(), k))
  }

  /** The release `runReleaseUpdate` goes on to create, with or without `--clean`. */
  function Updated(existing: Release, updates: Release, clean: bool): (r: Release)
    ensures r.artifactIds == existing.artifactIds
    ensures !clean ==> r.id == ""
  {
    if clean then
      updates.(artifactIds := existing.artifactIds)
    else
      existing.(
        id := "",
        env := Overlay(existing.env, updates.env),
        meta := Overlay(existing.meta, updates.meta),
        processes := MergedProcesses(existing.processes, updates.processes))
  }

  /** `for key, value := range src { dst[key] = value }`. */
  method MergeInto<V>(dst: GoMap<V>, src: GoMap<V>) returns (r: GoMap<V>)
    ensures r == Overlay(dst, src)
  {
    r := dst;
    var pending := src.Items().Keys;
    while pending != {}
      invariant pending <= src.Items().Keys
      invariant pending == src.Items().Keys ==> r == dst
      invariant pending != src.Items().Keys ==> r.Made?
      invariant r.Items().Keys == dst.Items().Keys + (src.Items().Keys - pending)
      invariant forall k :: k in src.Items() && k !in pending ==> r.Items()[k] == src.Items()[k]
      invariant forall k :: k in dst.Items() && (k !in src.Items() || k in pending) ==> r.Items()[k] == dst.Items()[k]
      decreases pending
    {
      var key :| key in pending;
      r := Assign(r, key, src.Items()[key]);
      pending := pending - {key};
    }
    assert r.Items() == Overlay(dst, src).Items();
  }

  /** The body of the process loop for a process type present in both releases. */
  method MergeProcess(procRelease: ProcessType, procUpdate: ProcessType) returns (p: ProcessType)
    ensures p == MergedProcess(procRelease, procUpdate)
  {
    var cmd, entrypoint, ports, service := procRelease.cmd, procRelease.entrypoint, procRelease.ports, procRelease.service;
    var data, omni, hostNetwork, resurrect := procRelease.data, procRelease.omni, procRelease.hostNetwork, procRelease.resurrect;
    if |procUpdate.cmd| > 0 {
      cmd := procUpdate.cmd;
    }
    if |procUpdate.entrypoint| > 0 {
      entrypoint := procUpdate.entrypoint;
    }
    var env := MergeInto(procRelease.env, procUpdate.env);
    if |procUpdate.ports| > 0 {
      ports := procUpdate.ports;
    }
    if procUpdate.data {
      data := true;
    }
    if procUpdate.omni {
      omni := true;
    }
    if procUpdate.hostNetwork {
      hostNetwork := true;
    }
    if |procUpdate.service| > 0 {
      service := procUpdate.service;
    }
    if procUpdate.resurrect {
      resurrect := true;
    }
    var resources := MergeInto(procRelease.resources, procUpdate.resources);
    p := ProcessType(cmd, entrypoint, env, ports, data, omni, hostNetwork, service, resurrect, resources);
  }

  /**
   * The loop's invariant: the process types of `updates` already visited are
   * merged, the others are as in the release.
   */
  ghost predicate MergedExcept(procs: map<string, ProcessType>, e: map<string, ProcessType>, u: map<string, ProcessType>, pending: set<string>) {
    && pending <= u.Keys
    && procs.Keys == e.Keys + (u.Keys - pending)
    && forall k :: k in procs ==> procs[k] == (if k in u && k !in pending then MergedEntry(e, u, k) else e[k])
  }

  /** One iteration of the loop keeps its invariant. */
  lemma MergeStep(procs: map<string, ProcessType>, e: map<string, ProcessType>, u: map<string, ProcessType>, pending: set<string>, k: string)
    requires MergedExcept(procs, e, u, pending) && k in pending
    ensures var v := if k in procs then MergedProcess(procs[k], u[k]) else u[k];
      MergedExcept(procs[k := v], e, u, pending - {k})
  {
  }

  /** When the loop ends, the map is the merged one. */
  lemma MergeDone(procs: map<string, ProcessType>, e: GoMap<ProcessType>, u: GoMap<ProcessType>)
    requires MergedExcept(procs, e.Items(), u.Items(), {}) && u.Items() != map[]
    ensures Made(procs) == MergedProcesses(e, u)
  {
    var keys := e.Items().Keys + u.Items().Keys;
    var merged := map k | k in keys :: MergedEntry(e.Items(), u.Items(), k);
    assert procs.Keys == merged.Keys;
    assert forall k :: k in procs ==> procs[k] == merged[k];
    assert procs == merged;
  }

  /** The loop over `updates.Processes`: insert a new process type, merge an existing one. */
  method MergeProcessTypes(existing: GoMap<ProcessType>, updates: GoMap<ProcessType>) returns (procs: GoMap<ProcessType>)
    ensures procs == MergedProcesses(existing, updates)
  {
    ghost var e, u := existing.Items(), updates.Items();
    procs := existing;
    var pending := updates.Items().Keys;
    while pending != {}
      invariant pending == u.Keys ==> procs == existing
      invariant pending != u.Keys ==> procs.Made?
      invariant MergedExcept(procs.Items(), e, u, pending)
      decreases pending
    {
      var procKey :| procKey in pending;
      MergeStep(procs.Items(), e, u, pending, procKey);
      var procUpdate := updates.Items()[procKey];
      if procKey !in procs.Items() {
        procs := Assign(procs, procKey, procUpdate);
      } else {
        var procRelease := MergeProcess(procs.Items()[procKey], procUpdate);
        procs := Assign(procs, procKey, procRelease);
      }
      pending := pending - {procKey};
    }
    if u != map[] {
      MergeDone(procs.Items(), existing, updates);
    }
  }

  /**
   * The merge block of `runReleaseUpdate`. With `clean` the update replaces the
   * release and keeps only its artifact ids; otherwise the id is cleared (so a
   * new release is created) and the update is merged in.
   */
  method UpdateRelease(existing: Release, updates: Release, clean: bool) returns (release: Release)
    ensures release == Updated(existing, updates, clean)
  {
    if clean {
      release := updates.(artifactIds := existing.artifactIds);
      return;
    }
    release := existing.(id := "");
    var env := MergeInto(release.env, updates.env);
    var meta := MergeInto(release.meta, updates.meta);
    var procs := MergeProcessTypes(release.processes, updates.processes);
    release := release.(env := env, meta := meta, processes := procs);
  }

  /** With `--clean` the result is the update, carrying the existing release's artifacts. */
  lemma CleanUpdateReplaces(existing: Release, updates: Release)
    ensures var r := Updated(existing, updates, true);
      && r.artifactIds == existing.artifactIds
      && r.id == updates.id
      && r.env == updates.env && r.meta == updates.meta && r.processes == updates.processes
  {
  }

  /** Without `--clean` the id is cleared, so a new release is created; the artifacts are kept. */
  lemma MergeCreatesNewRelease(existing: Release, updates: Release)
    ensures Updated(existing, updates, false).id == ""
    ensures Updated(existing, updates, false).artifactIds == existing.artifactIds
  {
  }

  /** The release `Env` and `Meta` are overridden key by key and lose no key. */
  lemma MergeOverridesEnvAndMeta(existing: Release, updates: Release)
    ensures var r := Updated(existing, updates, false);
      && IsOverride(r.env.Items(), existing.env.Items(), updates.env.Items())
      && IsOverride(r.meta.Items(), existing.meta.Items(), updates.meta.Items())
  {
  }

  /**
   * Process types: the result has every process type of either release; one only
   * in the update is inserted verbatim, one only in the existing release is untouched.
   */
  lemma MergeKeepsAndAddsProcessTypes(existing: Release, updates: Release)
    ensures var r := Updated(existing, updates, false).processes.Items();
      var e, u := existing.processes.Items(), updates.processes.Items();
      && r.Keys == e.Keys + u.Keys
      && (forall k :: k in u && k !in e ==> r[k] == u[k])
      && (forall k :: k in e && k !in u ==> r[k] == e[k])
  {
  }

  /**
   * A process type in both releases: slices and the service name take the
   * update's value exactly when it is non-empty, flags become old-or-update, and
   * the process `Env` and `Resources` are overridden key by key.
   */
  lemma MergeProcessFields(existing: Release, updates: Release, k: string)
    requires k in existing.processes.Items() && k in updates.processes.Items()
    ensures var p := Updated(existing, updates, false).processes.Items()[k];
      var o, u := existing.processes.Items()[k], updates.processes.Items()[k];
      && (u.cmd == [] ==> p.cmd == o.cmd)
      && (u.entrypoint == [] ==> p.entrypoint == o.entrypoint)
      && (u.ports == [] ==> p.ports == o.ports)
      && (u.service == "" ==> p.service == o.service)
      && (u.cmd != [] ==> p.cmd == u.cmd)
      && (u.entrypoint != [] ==> p.entrypoint == u.entrypoint)
      && (u.ports != [] ==> p.ports == u.ports)
      && (u.service != "" ==> p.service == u.service)
      && p.data == (o.data || u.data)
      && p.omni == (o.omni || u.omni)
      && p.hostNetwork == (o.hostNetwork || u.hostNetwork)
      && p.resurrect == (o.resurrect || u.resurrect)
      && IsOverride(p.env.Items(), o.env.Items(), u.env.Items())
      && IsOverride(p.resources.Items(), o.resources.Items(), u.resources.Items())
  {
  }

  /** An update can switch the boolean flags of an existing process type on, never off. */
  lemma MergeNeverClearsFlags(existing: Release, updates: Release, k: string)
    requires k in existing.processes.Items()
    ensures var p := Updated(existing, updates, false).processes.Items()[k];
      var o := existing.processes.Items()[k];
      && (o.data ==> p.data) && (o.omni ==> p.omni)
      && (o.hostNetwork ==> p.hostNetwork) && (o.resurrect ==> p.resurrect)
  {
  }

  /** Overriding twice with the same map is overriding once. */
  lemma OverlayIdempotent<V>(dst: GoMap<V>, src: GoMap<V>)
    ensures Overlay(Overlay(dst, src), src) == Overlay(dst, src)
  {
    if src.Items() != map[] {
      assert Overlay(dst, src).Items() + src.Items() == Overlay(dst, src).Items();
    }
  }

  /** Merging the same process update twice is merging it once; merging an update into itself changes nothing. */
  lemma MergedProcessIdempotent(o: ProcessType, u: ProcessType)
    ensures MergedProcess(MergedProcess(o, u), u) == MergedProcess(o, u)
    ensures MergedProcess(u, u) == u
  {
    OverlayIdempotent(o.env, u.env);
    OverlayIdempotent(o.resources, u.resources);
    if u.env.Items() != map[] {
      assert u.env.Items() + u.env.Items() == u.env.Items();
    }
    if u.resources.Items() != map[] {
      assert u.resources.Items() + u.resources.Items() == u.resources.Items();
    }
  }

  /** Applying the same update twice gives the same release as applying it once. */
  lemma MergeIdempotent(existing: Release, updates: Release)
    ensures Updated(Updated(existing, updates, false), updates, false) == Updated(existing, updates, false)
  {
    OverlayIdempotent(existing.env, updates.env);
    OverlayIdempotent(existing.meta, updates.meta);
    var e, u := existing.processes.Items(), updates.processes.Items();
    if u != map[] {
      var once := MergedProcesses(existing.processes, updates.processes);
      var p1 := once.Items();
      var p2 := MergedProcesses(once, updates.processes).Items();
      forall k | k in p1
        ensures k in p2 && p2[k] == p1[k]
      {
        if k in u && k in e {
          MergedProcessIdempotent(e[k], u[k]);
        } else if k in u {
          MergedProcessIdempotent(u[k], u[k]);
        }
      }
      assert p2 == p1;
    }
  }

  /** An update that sets nothing only clears the id. */
  lemma EmptyMergeOnlyClearsId(existing: Release, updates: Release)
    requires updates.env.Items() == map[] && updates.meta.Items() == map[]
    requires updates.processes.Items() == map[]
    ensures Updated(existing, updates, false) == existing.(id := "")
  {
  }

  /** As written, `m[k] = v` panics when `m` is a nil map: here, when `dst` is nil and `src` has an entry. */
  predicate WritesIntoNil<V>(dst: GoMap<V>, src: GoMap<V>) {
    dst.Nil? && src.Items() != map[]
  }

  /**
   * When the merge block as written panics: one of its loops writes into a nil
   * map (`release.Env`, `release.Meta`, `release.Processes`, or the `Env` or
   * `Resources` of an existing process type that the update also names).
   */
  predicate PanicsAsWritten(existing: Release, updates: Release, clean: bool)
    ensures PanicsAsWritten(existing, updates, clean) ==>
      && !clean
      && (|| existing.env.Nil? || existing.meta.Nil? || existing.processes.Nil?
          || exists k :: k in existing.processes.Items() &&
               (existing.processes.Items()[k].env.Nil? || existing.processes.Items()[k].resources.Nil?))
    ensures !clean && existing.env.Nil? && updates.env.Items() != map[] ==> PanicsAsWritten(existing, updates, clean)
  {
    && !clean
    && (|| WritesIntoNil(existing.env, updates.env)
        || WritesIntoNil(existing.meta, updates.meta)
        || WritesIntoNil(existing.processes, updates.processes)
        || exists k :: k in existing.processes.Items() && k in updates.processes.Items() &&
             (|| WritesIntoNil(existing.processes.Items()[k].env, updates.processes.Items()[k].env)
              || WritesIntoNil(existing.processes.Items()[k].resources, updates.processes.Items()[k].resources)))
  }

  /**
   * A release created by `flynn release add <uri>` without `-f` has nil `Env`,
   * `Meta` and `Processes`; updating it with an `env` entry panics as written,
   * while the corrected merge gives that entry.
   */
  lemma UpdateOfBareReleasePanics()
    ensures var existing := Release("989ce4a8", ["15d72b7f"], Nil, Nil, Nil);
      var updates := Release("", [], Made(map["MY_VAR" := "Hello World"]), Nil, Nil);
      && PanicsAsWritten(existing, updates, false)
      && Updated(existing, updates, false).env.Items() == map["MY_VAR" := "Hello World"]
  {
    assert "MY_VAR" in map["MY_VAR" := "Hello World"];
  }
}

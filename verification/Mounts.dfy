/** Volume mounts of a new sandbox: resolving their names and validating their paths. */
module Mounts {
  import opened Wrappers
  import opened Text
  import opened Paths

  datatype Mount = Mount(name: string, path: string)
  datatype Volume = Volume(id: string, name: string, volumeType: string)
  datatype SandboxVolumeMount = SandboxVolumeMount(id: string, path: string, volumeType: string, name: string)

  datatype InvalidMount = InvalidMount(index: nat, reason: string)

  datatype ConvertError =
    | VolumeMountsDisabled
    | NoEnvdVersion
    | InvalidEnvdVersion(version: string)
    | VolumesNotSupported(version: string)
    | DatabaseFailure
    | InvalidVolumeMounts(mounts: seq<InvalidMount>)

  const MIN_ENVD_VERSION_FOR_VOLUMES := "0.5.8"

  /** Why a path cannot be mounted at, if so. */
  function PathFault(path: string): Option<string> {
    if path == "" then Some("path cannot be empty")
    else if !IsAbs(path) then Some("path must be absolute")
    else if Clean(path) != path then Some("path must not contain any '.' or '..' components")
    else None
  }

  /** The three faults of a path and their texts, in order. */
  lemma PathFaultTexts(p: string)
    ensures p == "" ==> PathFault(p) == Some("path cannot be empty")
    ensures p != "" && p[0] != '/' ==> PathFault(p) == Some("path must be absolute")
    ensures p != "" && p[0] == '/' ==>
              PathFault(p) == if p == "/" || (forall c :: c in Split(p[1..], '/') ==> c != "" && c != "." && c != "..") then None
                              else Some("path must not contain any '.' or '..' components")
  {
    if IsAbs(p) { CleanFixesIffNormal(p); }
  }

  /** The accepted paths are the absolute ones in normal form, and different ones lead to different places. */
  lemma AcceptedPaths(p: string, q: string)
    ensures PathFault(p).None? <==> IsAbs(p) && Normal(p)
    ensures PathFault(p).None? && PathFault(q).None? ==> (p == q <==> Place(p) == Place(q))
  {
    if IsAbs(p) { CleanFixesIffNormal(p); }
    if IsAbs(p) && IsAbs(q) { SamePlaceIffSameClean(p, q); }
  }

  /** The distinct names of the mounts, in any order. */
  method DedupeVolumeNames(items: seq<Mount>) returns (results: seq<string>)
    ensures forall i, j :: 0 <= i < j < |results| ==> results[i] != results[j]
    ensures forall n :: n in results <==> exists i :: 0 <= i < |items| && items[i].name == n
  {
    var names := {};
    for i := 0 to |items|
      invariant forall n :: n in names <==> exists j :: 0 <= j < i && items[j].name == n
    {
      names := names + {items[i].name};
    }
    results := [];
    var rest := names;
    while rest != {}
      invariant rest <= names
      invariant forall n :: n in results <==> n in names && n !in rest
      invariant forall i, j :: 0 <= i < j < |results| ==> results[i] != results[j]
      decreases |rest|
    {
      var n :| n in rest;
      results, rest := results + [n], rest - {n};
    }
  }

  /** The volumes by name. */
  method VolumesByName(rows: seq<Volume>) returns (m: map<string, Volume>)
    ensures forall n :: n in m <==> exists v :: v in rows && v.name == n
    ensures forall n :: n in m ==> m[n] in rows && m[n].name == n
  {
    m := map[];
    for i := 0 to |rows|
      invariant forall n :: n in m <==> exists v :: v in rows[..i] && v.name == n
      invariant forall n :: n in m ==> m[n] in rows[..i] && m[n].name == n
    {
      assert rows[..i + 1] == rows[..i] + [rows[i]];
      m := m[rows[i].name := rows[i]];
    }
    assert rows[..|rows|] == rows;
  }

  function NotFound(name: string): string {
    "volume '" + name + "' not found"
  }

  function InUse(path: string): string {
    "path '" + path + "' is already used"
  }

  /** The mount has a known volume and a valid path. */
  predicate Sound(known: set<string>, m: Mount) {
    m.name in known && PathFault(m.path).None?
  }

  /** An earlier sound mount has the same path. */
  ghost predicate Repeats(mounts: seq<Mount>, known: set<string>, j: nat)
    requires j < |mounts|
  {
    exists i :: 0 <= i < j && Sound(known, mounts[i]) && mounts[i].path == mounts[j].path
  }

  /** What is wrong with the j-th mount, if anything. */
  ghost function Fault(mounts: seq<Mount>, known: set<string>, j: nat): Option<string>
    requires j < |mounts|
  {
    var m := mounts[j];
    if m.name !in known then Some(NotFound(m.name))
    else if PathFault(m.path).Some? then PathFault(m.path)
    else if Repeats(mounts, known, j) then Some(InUse(m.path))
    else None
  }

  /** The faults of a mount and their texts, in order. */
  lemma FaultTexts(mounts: seq<Mount>, known: set<string>, j: nat)
    requires j < |mounts|
    ensures var m := mounts[j];
            && (m.name !in known ==> Fault(mounts, known, j) == Some("volume '" + m.name + "' not found"))
            && (m.name in known && PathFault(m.path).Some? ==> Fault(mounts, known, j) == PathFault(m.path))
            && (m.name in known && PathFault(m.path).None? ==>
                  Fault(mounts, known, j)
                  == if exists i :: 0 <= i < j && mounts[i].name in known && PathFault(mounts[i].path).None? && mounts[i].path == m.path
                     then Some("path '" + m.path + "' is already used") else None)
  {
    assert Repeats(mounts, known, j)
      <==> exists i :: 0 <= i < j && mounts[i].name in known && PathFault(mounts[i].path).None? && mounts[i].path == mounts[j].path;
  }

  /** What is wrong with each of the first n mounts. */
  ghost function FaultsBelow(mounts: seq<Mount>, known: set<string>, n: nat): (f: seq<Option<string>>)
    requires n <= |mounts|
    ensures |f| == n
  {
    if n == 0 then [] else FaultsBelow(mounts, known, n - 1) + [Fault(mounts, known, n - 1)]
  }

  ghost function Faults(mounts: seq<Mount>, known: set<string>): (f: seq<Option<string>>)
    ensures |f| == |mounts|
  {
    FaultsBelow(mounts, known, |mounts|)
  }

  lemma {:induction false} FaultAt(mounts: seq<Mount>, known: set<string>, n: nat, j: nat)
    requires j < n <= |mounts|
    ensures FaultsBelow(mounts, known, n)[j] == Fault(mounts, known, j)
  {
    if j < n - 1 { FaultAt(mounts, known, n - 1, j); }
  }

  /** The paths of the mounts below n that were accepted. */
  function UsedPaths(mounts: seq<Mount>, faults: seq<Option<string>>, n: nat): set<string>
    requires n <= |faults| == |mounts|
  {
    if n == 0 then {}
    else UsedPaths(mounts, faults, n - 1) + if faults[n - 1].None? then {mounts[n - 1].path} else {}
  }

  lemma {:induction false} UsedPathsMeaning(mounts: seq<Mount>, faults: seq<Option<string>>, n: nat, path: string)
    requires n <= |faults| == |mounts|
    ensures path in UsedPaths(mounts, faults, n) <==> exists j :: 0 <= j < n && faults[j].None? && mounts[j].path == path
  {
    if n > 0 { UsedPathsMeaning(mounts, faults, n - 1, path); }
  }

  /** A path in use is one that an earlier sound mount has. */
  lemma UsedIffRepeats(mounts: seq<Mount>, known: set<string>, i: nat)
    requires i < |mounts|
    ensures mounts[i].path in UsedPaths(mounts, Faults(mounts, known), i) <==> Repeats(mounts, known, i)
  {
    var faults := Faults(mounts, known);
    UsedPathsMeaning(mounts, faults, i, mounts[i].path);
    if Repeats(mounts, known, i) {
      RepeatsAnAcceptedOne(mounts, known, i);
      var j :| 0 <= j < i && Fault(mounts, known, j).None? && mounts[j].path == mounts[i].path;
      FaultAt(mounts, known, |mounts|, j);
    }
    if mounts[i].path in UsedPaths(mounts, faults, i) {
      var j :| 0 <= j < i && faults[j].None? && mounts[j].path == mounts[i].path;
      FaultAt(mounts, known, |mounts|, j);
      assert Sound(known, mounts[j]);
    }
  }

  /** The faults below n, in order, each with its index. */
  ghost predicate Reports(bad: seq<InvalidMount>, faults: seq<Option<string>>, n: nat)
    requires n <= |faults|
  {
    Ascending(bad) && OnlyFaults(bad, faults, n) && AllFaults(bad, faults, n)
  }

  ghost predicate Ascending(bad: seq<InvalidMount>) {
    forall a, b :: 0 <= a < b < |bad| ==> bad[a].index < bad[b].index
  }

  ghost predicate OnlyFaults(bad: seq<InvalidMount>, faults: seq<Option<string>>, n: nat)
    requires n <= |faults|
  {
    forall x :: x in bad ==> x.index < n && faults[x.index] == Some(x.reason)
  }

  ghost predicate AllFaults(bad: seq<InvalidMount>, faults: seq<Option<string>>, n: nat)
    requires n <= |faults|
  {
    forall j :: 0 <= j < n && faults[j].Some? ==> InvalidMount(j, faults[j].value) in bad
  }

  /** Each mount with its volume, in order. */
  ghost predicate Matches(results: seq<SandboxVolumeMount>, mounts: seq<Mount>, volumes: map<string, Volume>, n: nat)
    requires n <= |mounts|
  {
    && |results| == n
    && (forall i :: 0 <= i < n ==>
          && mounts[i].name in volumes
          && var v := volumes[mounts[i].name];
             results[i] == SandboxVolumeMount(v.id, mounts[i].path, v.volumeType, v.name))
  }

  /** The checks before any mount is looked at. `isGte` is the version comparison, with no answer for an invalid version. */
  function Gate(enabled: bool, envdVersion: Option<string>, isGte: (string, string) -> Option<bool>): Option<ConvertError> {
    var version := if envdVersion.Some? then envdVersion.value else "";
    if !enabled then Some(VolumeMountsDisabled)
    else if version == "" then Some(NoEnvdVersion)
    else match isGte(version, MIN_ENVD_VERSION_FOR_VOLUMES)
         case None => Some(InvalidEnvdVersion(version))
         case Some(ok) => if ok then None else Some(VolumesNotSupported(version))
  }

  /** The checks pass exactly when volumes are enabled and the version is given, valid and at least 0.5.8; otherwise the first failing one is the error. */
  lemma GateMeaning(enabled: bool, envdVersion: Option<string>, isGte: (string, string) -> Option<bool>)
    ensures var given := envdVersion.Some? && envdVersion.value != "";
            var gate := Gate(enabled, envdVersion, isGte);
            && (gate == None <==> enabled && given && isGte(envdVersion.value, "0.5.8") == Some(true))
            && (gate == Some(VolumeMountsDisabled) <==> !enabled)
            && (gate == Some(NoEnvdVersion) <==> enabled && !given)
            && (given ==>
                  && (gate == Some(InvalidEnvdVersion(envdVersion.value)) <==> enabled && isGte(envdVersion.value, "0.5.8") == None)
                  && (gate == Some(VolumesNotSupported(envdVersion.value)) <==> enabled && isGte(envdVersion.value, "0.5.8") == Some(false)))
  {
  }

  /**
   The conversion.  `rows` are the team's volumes with the requested names, or None if the
   database fails.  With mounts given and the checks passed it succeeds exactly when no mount is
   faulty, and then returns each mount with its volume; otherwise it reports exactly the faulty
   mounts, in order.
   */
  method ConvertAPIVolumesToOrchestratorVolumes(
    mounts: seq<Mount>, enabled: bool, envdVersion: Option<string>, isGte: (string, string) -> Option<bool>,
    rows: Option<seq<Volume>>)
    returns (r: Result<seq<SandboxVolumeMount>, ConvertError>, ghost volumes: map<string, Volume>)
    ensures mounts == [] ==> r == Ok([])
    ensures mounts != [] && Gate(enabled, envdVersion, isGte).Some? ==> r == Err(Gate(enabled, envdVersion, isGte).value)
    ensures mounts != [] && Gate(enabled, envdVersion, isGte).None? && rows.None? ==> r == Err(DatabaseFailure)
    ensures mounts != [] && Gate(enabled, envdVersion, isGte).None? && rows.Some? ==>
              && (forall n :: n in volumes <==> exists v :: v in rows.value && v.name == n)
              && (forall n :: n in volumes ==> volumes[n] in rows.value && volumes[n].name == n)
              && (r.Ok? <==> forall f :: f in Faults(mounts, volumes.Keys) ==> f == None)
              && (r.Ok? ==> Matches(r.value, mounts, volumes, |mounts|))
              && (r.Err? ==> r.error.InvalidVolumeMounts? && Reports(r.error.mounts, Faults(mounts, volumes.Keys), |mounts|))
  {
    volumes := map[];
    if |mounts| == 0 { return Ok([]), volumes; }
    if !enabled { return Err(VolumeMountsDisabled), volumes; }
    var version := if envdVersion.Some? then envdVersion.value else "";
    if version == "" { return Err(NoEnvdVersion), volumes; }
    var gte := isGte(version, MIN_ENVD_VERSION_FOR_VOLUMES);
    if gte.None? { return Err(InvalidEnvdVersion(version)), volumes; }
    if !gte.value { return Err(VolumesNotSupported(version)), volumes; }
    if rows.None? { return Err(DatabaseFailure), volumes; }
    var byName := VolumesByName(rows.value);
    volumes := byName;
    var bad, results := Resolved(mounts, byName);
    FaultsReported(Faults(mounts, volumes.Keys));
    if |bad| > 0 { return Err(InvalidVolumeMounts(bad)), volumes; }
    return Ok(results), volumes;
  }

  /** Goes through the mounts, remembering the paths in use. */
  method Resolved(mounts: seq<Mount>, volumes: map<string, Volume>)
    returns (bad: seq<InvalidMount>, results: seq<SandboxVolumeMount>)
    ensures bad == Collected(Faults(mounts, volumes.Keys), |mounts|)
    ensures bad == [] ==> Matches(results, mounts, volumes, |mounts|)
  {
    bad, results := [], [];
    var usedPaths := {};
    ghost var faults := Faults(mounts, volumes.Keys);
    for i := 0 to |mounts|
      invariant usedPaths == UsedPaths(mounts, faults, i)
      invariant bad == Collected(faults, i)
      invariant bad == [] ==> Matches(results, mounts, volumes, i)
    {
      var fault;
      fault, usedPaths := CheckMount(mounts, volumes.Keys, usedPaths, i);
      if fault.Some? {
        bad := bad + [InvalidMount(i, fault.value)];
        continue;
      }
      var v := volumes[mounts[i].name];
      results := results + [SandboxVolumeMount(v.id, mounts[i].path, v.volumeType, v.name)];
    }
  }

  /** Checks one mount, and takes its path if nothing is wrong with it. */
  method CheckMount(mounts: seq<Mount>, known: set<string>, usedPaths: set<string>, i: nat)
    returns (fault: Option<string>, used: set<string>)
    requires i < |mounts| && usedPaths == UsedPaths(mounts, Faults(mounts, known), i)
    ensures fault == Faults(mounts, known)[i]
    ensures used == UsedPaths(mounts, Faults(mounts, known), i + 1)
    ensures fault.None? ==> mounts[i].name in known
  {
    var m := mounts[i];
    FaultAt(mounts, known, |mounts|, i);
    UsedIffRepeats(mounts, known, i);
    if m.name !in known {
      return Some(NotFound(m.name)), usedPaths;
    }
    fault := PathFault(m.path);
    if fault.Some? {
      return fault, usedPaths;
    }
    if m.path in usedPaths {
      return Some(InUse(m.path)), usedPaths;
    }
    return None, usedPaths + {m.path};
  }

  /** The faults below n, collected in order. */
  function Collected(faults: seq<Option<string>>, n: nat): seq<InvalidMount>
    requires n <= |faults|
  {
    if n == 0 then []
    else if faults[n - 1].None? then Collected(faults, n - 1)
    else Collected(faults, n - 1) + [InvalidMount(n - 1, faults[n - 1].value)]
  }

  lemma {:induction false} CollectedOnlyFaults(faults: seq<Option<string>>, n: nat)
    requires n <= |faults|
    ensures OnlyFaults(Collected(faults, n), faults, n)
  {
    if n > 0 { CollectedOnlyFaults(faults, n - 1); }
  }

  lemma AscendingAppend(bad: seq<InvalidMount>, faults: seq<Option<string>>, x: InvalidMount)
    requires x.index <= |faults| && Ascending(bad) && OnlyFaults(bad, faults, x.index)
    ensures Ascending(bad + [x])
  {
    forall a, b | 0 <= a < b < |bad + [x]|
      ensures (bad + [x])[a].index < (bad + [x])[b].index
    {
      if b == |bad| { assert bad[a] in bad; }
    }
  }

  lemma {:induction false} CollectedAscending(faults: seq<Option<string>>, n: nat)
    requires n <= |faults|
    ensures Ascending(Collected(faults, n))
  {
    if n > 0 {
      CollectedAscending(faults, n - 1);
      if faults[n - 1].Some? {
        CollectedOnlyFaults(faults, n - 1);
        AscendingAppend(Collected(faults, n - 1), faults, InvalidMount(n - 1, faults[n - 1].value));
      }
    }
  }

  lemma {:induction false} CollectedHas(faults: seq<Option<string>>, n: nat, j: nat)
    requires j < n <= |faults| && faults[j].Some?
    ensures InvalidMount(j, faults[j].value) in Collected(faults, n)
  {
    if j < n - 1 { CollectedHas(faults, n - 1, j); }
  }

  lemma CollectedReports(faults: seq<Option<string>>, n: nat)
    requires n <= |faults|
    ensures Reports(Collected(faults, n), faults, n)
  {
    CollectedAscending(faults, n);
    CollectedOnlyFaults(faults, n);
    forall j | 0 <= j < n && faults[j].Some?
      ensures InvalidMount(j, faults[j].value) in Collected(faults, n)
    {
      CollectedHas(faults, n, j);
    }
  }

  /** All faults are reported, so there are none exactly when nothing is. */
  lemma FaultsReported(faults: seq<Option<string>>)
    ensures Reports(Collected(faults, |faults|), faults, |faults|)
    ensures Collected(faults, |faults|) == [] <==> forall f :: f in faults ==> f == None
  {
    CollectedReports(faults, |faults|);
    var bad := Collected(faults, |faults|);
    if bad != [] { assert bad[0] in bad && faults[bad[0].index] in faults; }
  }

  /** No mount is faulty exactly when all are sound and all paths lead to different places. */
  lemma FaultlessIff(mounts: seq<Mount>, known: set<string>)
    ensures (forall f :: f in Faults(mounts, known) ==> f == None)
            <==> && (forall j :: 0 <= j < |mounts| ==> mounts[j].name in known && IsAbs(mounts[j].path) && Normal(mounts[j].path))
                 && (forall i, j :: 0 <= i < j < |mounts| ==> Place(mounts[i].path) != Place(mounts[j].path))
  {
    var faults := Faults(mounts, known);
    forall j | 0 <= j < |mounts|
      ensures Sound(known, mounts[j]) <==> mounts[j].name in known && IsAbs(mounts[j].path) && Normal(mounts[j].path)
    {
      AcceptedPaths(mounts[j].path, mounts[j].path);
    }
    forall i, j | 0 <= i < j < |mounts| && Sound(known, mounts[i]) && Sound(known, mounts[j])
      ensures IsAbs(mounts[i].path) && IsAbs(mounts[j].path)
      ensures mounts[i].path == mounts[j].path <==> Place(mounts[i].path) == Place(mounts[j].path)
    {
      AcceptedPaths(mounts[i].path, mounts[j].path);
    }
    forall j | 0 <= j < |mounts|
      ensures faults[j].None? <==> Sound(known, mounts[j]) && !Repeats(mounts, known, j)
    {
      FaultAt(mounts, known, |mounts|, j);
    }
    if forall f :: f in faults ==> f == None {
      assert forall j :: 0 <= j < |mounts| ==> faults[j] in faults;
    }
  }

  /**
   Counting only earlier mounts that were themselves accepted as using their path makes no
   difference: the first sound mount with a path is accepted.
   */
  lemma {:induction false} RepeatsAnAcceptedOne(mounts: seq<Mount>, known: set<string>, j: nat)
    requires j < |mounts| && Repeats(mounts, known, j)
    ensures exists i :: 0 <= i < j && Fault(mounts, known, i).None? && mounts[i].path == mounts[j].path
    decreases j
  {
    var i :| 0 <= i < j && Sound(known, mounts[i]) && mounts[i].path == mounts[j].path;
    if Repeats(mounts, known, i) { RepeatsAnAcceptedOne(mounts, known, i); }
  }
}

// Planning the dotenv files of a manifest: resolve each variable to its allocated port,
// then edit each file.
module DotenvPlan {
  import opened Wrappers
  import opened ConfigFiles
  import opened ConfigManager
  import opened Workflow
  import Decimal
  import DotenvLine
  import Dot = Dotenv

  // `values` pairs each variable with the name of the port request whose port it gets.
  datatype DotenvFile = DotenvFile(path: Path, values: seq<(string, string)>)

  // What the manifest has checked: well-formed variable names, no variable twice per file.
  ghost predicate ValidFile(f: DotenvFile) {
    && (forall k :: 0 <= k < |f.values| ==> DotenvLine.ValidKey(f.values[k].0))
    && (forall j, k :: 0 <= j < k < |f.values| ==> f.values[j].0 != f.values[k].0)
  }

  // None is the KeyError of a name the allocation does not have.
  function Resolve(values: seq<(string, string)>, ports: Ports): Option<seq<Dot.Setting>> {
    if values == [] then Some([])
    else
      var last := values[|values| - 1];
      match Resolve(values[..|values| - 1], ports)
      case None => None
      case Some(settings) =>
        if last.1 in ports then Some(settings + [Dot.Setting(last.0, Decimal.Print(ports[last.1]))]) else None
  }

  function PlanFile(files: Files, f: DotenvFile, ports: Ports): Result<PlannedFile, PlanResult> {
    match Resolve(f.values, ports)
    case None => Err(PlanRaised)
    case Some(settings) =>
      match Dot.Update(ReadFile(files, f.path), settings)
      case Err(_) => Err(PlanRejected)
      case Ok(edited) => Ok(PlannedFile(f.path, Dotenv, edited.0))
  }

  // The first file that cannot be planned decides the outcome.
  function Build(files: Files, fs: seq<DotenvFile>, ports: Ports): PlanResult {
    if fs == [] then PlanReady([])
    else
      match Build(files, fs[..|fs| - 1], ports)
      case PlanReady(plan) =>
        (match PlanFile(files, fs[|fs| - 1], ports)
         case Ok(p) => PlanReady(plan + [p])
         case Err(e) => e)
      case failed => failed
  }

  method BuildPlan(files: Files, fs: seq<DotenvFile>, ports: Ports) returns (r: PlanResult)
    ensures r == Build(files, fs, ports)
  {
    var plan: seq<PlannedFile> := [];
    for i := 0 to |fs|
      invariant Build(files, fs[..i], ports) == PlanReady(plan)
    {
      assert fs[..i + 1][..i] == fs[..i];
      match PlanFile(files, fs[i], ports) {
        case Ok(p) => plan := plan + [p];
        case Err(e) =>
          BuildStopsAt(files, fs, ports, i + 1);
          return e;
      }
    }
    assert fs[..|fs|] == fs;
    return PlanReady(plan);
  }

  lemma {:induction false} BuildStopsAt(files: Files, fs: seq<DotenvFile>, ports: Ports, n: nat)
    requires n <= |fs| && !Build(files, fs[..n], ports).PlanReady?
    ensures Build(files, fs, ports) == Build(files, fs[..n], ports)
  {
    if n == |fs| {
      assert fs[..n] == fs;
    } else {
      var init := fs[..|fs| - 1];
      assert init[..n] == fs[..n];
      BuildStopsAt(files, init, ports, n);
    }
  }

  lemma FailureIsNoPlan(files: Files, f: DotenvFile, ports: Ports)
    ensures PlanFile(files, f, ports).Err? ==> !PlanFile(files, f, ports).error.PlanReady?
  {
    hide Resolve, Dot.Update;
  }

  lemma {:induction false} PlanFilePerFile(files: Files, fs: seq<DotenvFile>, ports: Ports)
    ensures Build(files, fs, ports).PlanReady? <==> forall k :: 0 <= k < |fs| ==> PlanFile(files, fs[k], ports).Ok?
    ensures Build(files, fs, ports).PlanReady? ==>
      var plan := Build(files, fs, ports).plan;
      |plan| == |fs| && forall k :: 0 <= k < |fs| ==> PlanFile(files, fs[k], ports) == Ok(plan[k])
  {
    hide PlanFile;
    if fs != [] {
      FailureIsNoPlan(files, fs[|fs| - 1], ports);
      PlanFilePerFile(files, fs[..|fs| - 1], ports);
      assert forall k :: 0 <= k < |fs| - 1 ==> fs[..|fs| - 1][k] == fs[k];
    }
  }

  lemma {:induction false} ResolvedAre(values: seq<(string, string)>, ports: Ports)
    requires Resolve(values, ports).Some?
    ensures var settings := Resolve(values, ports).value;
      && |settings| == |values|
      && forall k :: 0 <= k < |values| ==>
        values[k].1 in ports && settings[k] == Dot.Setting(values[k].0, Decimal.Print(ports[values[k].1]))
  {
    if values != [] {
      ResolvedAre(values[..|values| - 1], ports);
    }
  }

  // The editor gets what it expects.
  lemma ResolvedValid(f: DotenvFile, ports: Ports)
    requires ValidFile(f) && Resolve(f.values, ports).Some?
    ensures Dot.ValidMapping(Resolve(f.values, ports).value)
  {
    ResolvedAre(f.values, ports);
    forall k | 0 <= k < |f.values| ensures DotenvLine.PlainValue(Decimal.Print(ports[f.values[k].1])) {
      Decimal.PrintIsNumeral(ports[f.values[k].1]);
    }
  }

  /* The plan, told file by file. */

  // Each variable with the printed port of the request it names.
  ghost predicate SettingsFor(f: DotenvFile, ports: Ports, settings: seq<Dot.Setting>) {
    && |settings| == |f.values|
    && forall k :: 0 <= k < |settings| ==>
         f.values[k].1 in ports && settings[k] == Dot.Setting(f.values[k].0, Decimal.Print(ports[f.values[k].1]))
  }

  function TextOf(files: Files, path: Path): Option<Text> {
    if path in files then Some(files[path]) else None
  }

  ghost predicate FilePlanned(files: Files, f: DotenvFile, ports: Ports, p: PlannedFile) {
    exists settings :: SettingsFor(f, ports, settings) && Dot.Update(TextOf(files, f.path), settings).Ok? &&
      p == PlannedFile(f.path, Dotenv, Dot.Update(TextOf(files, f.path), settings).value.0)
  }

  // A name without a port raises; a refused edit is rejected.
  ghost predicate FileFails(files: Files, f: DotenvFile, ports: Ports, r: PlanResult) {
    if exists k :: 0 <= k < |f.values| && f.values[k].1 !in ports then r == PlanRaised
    else
      && r == PlanRejected
      && exists settings :: SettingsFor(f, ports, settings) && Dot.Update(TextOf(files, f.path), settings).Err?
  }

  lemma {:induction false} ResolvedIff(values: seq<(string, string)>, ports: Ports)
    ensures Resolve(values, ports).Some? <==> forall k :: 0 <= k < |values| ==> values[k].1 in ports
  {
    if values != [] {
      ResolvedIff(values[..|values| - 1], ports);
    }
  }

  lemma PlanFileIs(files: Files, f: DotenvFile, ports: Ports)
    ensures match PlanFile(files, f, ports)
      case Ok(p) => FilePlanned(files, f, ports, p)
      case Err(r) => FileFails(files, f, ports, r)
  {
    hide Resolve, Dot.Update;
    ResolvedIff(f.values, ports);
    if Resolve(f.values, ports).Some? {
      var settings := Resolve(f.values, ports).value;
      ResolvedAre(f.values, ports);
      assert SettingsFor(f, ports, settings);
      assert ReadFile(files, f.path) == TextOf(files, f.path);
    }
  }

  // One planned file for each mapping, in order, or what is wrong with the first mapping
  // that cannot be planned.
  ghost predicate PlanIs(files: Files, fs: seq<DotenvFile>, ports: Ports, r: PlanResult) {
    match r
    case PlanReady(plan) =>
      |plan| == |fs| && forall k :: 0 <= k < |fs| ==> FilePlanned(files, fs[k], ports, plan[k])
    case _ => exists k, plan :: FailsFrom(files, fs, ports, r, k, plan)
  }

  ghost predicate FailsFrom(files: Files, fs: seq<DotenvFile>, ports: Ports, r: PlanResult, k: nat,
                            plan: seq<PlannedFile>) {
    && k < |fs| && |plan| == k && (forall j :: 0 <= j < k ==> FilePlanned(files, fs[j], ports, plan[j]))
    && FileFails(files, fs[k], ports, r)
  }

  lemma {:induction false} BuildIs(files: Files, fs: seq<DotenvFile>, ports: Ports)
    ensures PlanIs(files, fs, ports, Build(files, fs, ports))
  {
    hide FilePlanned, FileFails, PlanFile;
    if fs != [] {
      var init, f := fs[..|fs| - 1], fs[|fs| - 1];
      var before, r := Build(files, init, ports), Build(files, fs, ports);
      BuildIs(files, init, ports);
      PlanFileIs(files, f, ports);
      if before.PlanReady? {
        assert forall k :: 0 <= k < |init| ==> FilePlanned(files, init[k], ports, before.plan[k]);
        if PlanFile(files, f, ports).Err? {
          assert FailsFrom(files, fs, ports, r, |init|, before.plan);
          FailsPlan(files, fs, ports, r, |init|, before.plan);
        }
      } else {
        var k, plan :| FailsFrom(files, init, ports, before, k, plan);
        assert FailsFrom(files, fs, ports, r, k, plan);
        FailsPlan(files, fs, ports, r, k, plan);
      }
    }
  }

  lemma FailsPlan(files: Files, fs: seq<DotenvFile>, ports: Ports, r: PlanResult, k: nat, plan: seq<PlannedFile>)
    requires FailsFrom(files, fs, ports, r, k, plan)
    ensures !r.PlanReady? && PlanIs(files, fs, ports, r)
  {
  }
}

/** The supply-chain part of an agent's evidence, flattened into one list of typed findings. */
module SupplyChain {
  import opened Matching
  import opened Options

  /** A typed finding of the flat list. */
  datatype Supply = Supply(kind: string, name: string)

  datatype Dependency = Dependency(name: string, cve: bool)

  /** The four lists of the report by their names; a single entry in place of a list is a list of one. */
  datatype Report = Report(typosquats: seq<Entry<string>>, confusions: seq<Entry<string>>,
                           scripts: seq<Entry<string>>, dependencies: seq<Entry<Dependency>>)

  function Typed(kind: string, lower: string -> string, names: seq<Entry<string>>): seq<Entry<Supply>> {
    if names == [] then []
    else
      var last := names[|names| - 1];
      Typed(kind, lower, names[..|names| - 1])
      + if last.Finding? then [Finding(Supply(kind, lower(last.value)))] else []
  }

  /** Dependencies count only with a CVE. */
  function Vulnerable(lower: string -> string, deps: seq<Entry<Dependency>>): seq<Entry<Supply>> {
    if deps == [] then []
    else
      var last := deps[|deps| - 1];
      Vulnerable(lower, deps[..|deps| - 1])
      + if last.Finding? && last.value.cve then [Finding(Supply("vulnerable_dependency", lower(last.value.name)))]
        else []
  }

  /** `_flatten_supply_chain`; a report that is not a dictionary is no report. */
  function Flattened(lower: string -> string, report: Option<Report>): seq<Entry<Supply>> {
    if report.None? then []
    else
      var r := report.value;
      Typed("typosquat", lower, r.typosquats) + Typed("dependency_confusion", lower, r.confusions)
      + Typed("install_script", (s: string) => "", r.scripts) + Vulnerable(lower, r.dependencies)
  }

  method AppendTyped(flat: seq<Entry<Supply>>, kind: string, lower: string -> string, names: seq<Entry<string>>)
    returns (longer: seq<Entry<Supply>>)
    ensures longer == flat + Typed(kind, lower, names)
  {
    longer := flat;
    for i := 0 to |names|
      invariant longer == flat + Typed(kind, lower, names[..i])
    {
      assert names[..i + 1][..i] == names[..i];
      if names[i].Finding? {
        longer := longer + [Finding(Supply(kind, lower(names[i].value)))];
      }
    }
    assert names[..|names|] == names;
  }

  method AppendVulnerable(flat: seq<Entry<Supply>>, lower: string -> string, deps: seq<Entry<Dependency>>)
    returns (longer: seq<Entry<Supply>>)
    ensures longer == flat + Vulnerable(lower, deps)
  {
    longer := flat;
    for i := 0 to |deps|
      invariant longer == flat + Vulnerable(lower, deps[..i])
    {
      assert deps[..i + 1][..i] == deps[..i];
      if deps[i].Finding? && deps[i].value.cve {
        longer := longer + [Finding(Supply("vulnerable_dependency", lower(deps[i].value.name)))];
      }
    }
    assert deps[..|deps|] == deps;
  }

  method Flatten(lower: string -> string, report: Option<Report>) returns (flat: seq<Entry<Supply>>)
    ensures flat == Flattened(lower, report)
  {
    hide Typed, Vulnerable;
    flat := [];
    if report.None? {
      return;
    }
    var r := report.value;
    flat := AppendTyped(flat, "typosquat", lower, r.typosquats);
    flat := AppendTyped(flat, "dependency_confusion", lower, r.confusions);
    flat := AppendTyped(flat, "install_script", (s: string) => "", r.scripts);
    flat := AppendVulnerable(flat, lower, r.dependencies);
  }

  /** The report with one more dependency. */
  function WithDependency(r: Report, d: Dependency): Report {
    r.(dependencies := r.dependencies + [Finding(d)])
  }

  /** One more dependency is one more finding at the end of the list if it has a CVE, and nothing
      otherwise. */
  lemma OneMoreDependency(lower: string -> string, r: Report, d: Dependency)
    ensures Flattened(lower, Some(WithDependency(r, d)))
            == Flattened(lower, Some(r))
               + if d.cve then [Finding(Supply("vulnerable_dependency", lower(d.name)))] else []
  {
    var deps := r.dependencies + [Finding(d)];
    assert deps[..|deps| - 1] == r.dependencies;
  }
}

/** What CT Ops has been told about each finding. */
module CtOpsView {
  import opened GoStrings
  import opened CtOps
  import opened SnapshotTables
  import opened SnapshotTheorems

  /** The last status CT Ops was told for each finding. */
  type View = map<FindingKey, Status>

  function Told(view: View, orgID: string, posted: seq<Finding>): View {
    if posted == [] then view
    else
      var last := posted[|posted| - 1];
      Told(view, orgID, posted[..|posted| - 1])[KeyOf(orgID, last) := last.status]
  }

  /** CT Ops takes the finding to be open. */
  predicate ToldOpen(view: View, key: FindingKey) {
    Get(view, key) == Some(Open)
  }

  ghost predicate ReportedIn(findings: seq<Finding>, orgID: string, key: FindingKey) {
    exists f :: f in findings && KeyOf(orgID, f) == key
  }

  lemma {:induction false} ToldAt(view: View, orgID: string, posted: seq<Finding>, key: FindingKey)
    ensures var found := LastFor(orgID, posted, key);
      Get(Told(view, orgID, posted), key) == if found.Some? then Some(found.value.status) else Get(view, key)
  {
    if posted != [] {
      ToldAt(view, orgID, posted[..|posted| - 1], key);
    }
  }
}

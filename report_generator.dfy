// ReportGenerator: every process parameter named "report.<key>" becomes a
// counter report entry <key> with the parameter's value.

module ReportGenerating {
  import opened JavaStrings

  const ReportPrefix: string := "report."

  datatype ReportEntryType = Counter | Duration

  datatype ReportEntry = ReportEntry(key: string, entryType: ReportEntryType, value: string)

  /** The entries, in the order the parameters are visited. */
  function ReportEntries(parameters: seq<(string, string)>): (es: seq<ReportEntry>)
    ensures |es| <= |parameters|
    ensures forall e :: e in es ==> e.entryType == Counter
  {
    if parameters == [] then []
    else
      var (name, value) := parameters[0];
      (if StartsWith(name, ReportPrefix)
       then [ReportEntry(name[|ReportPrefix|..], Counter, value)] else [])
      + ReportEntries(parameters[1..])
  }

  /** An entry appears exactly for a prefixed parameter; its key is the name
      without the prefix and its value is the parameter's value. */
  lemma {:induction false} ReportEntriesSpec(parameters: seq<(string, string)>, e: ReportEntry)
    ensures e in ReportEntries(parameters) <==>
              e.entryType == Counter && (ReportPrefix + e.key, e.value) in parameters
  {
    if parameters != [] {
      ReportEntriesSpec(parameters[1..], e);
      var (name, value) := parameters[0];
      if StartsWith(name, ReportPrefix) {
        assert name == ReportPrefix + name[|ReportPrefix|..];
      }
      if (ReportPrefix + e.key, e.value) == parameters[0] {
        assert (ReportPrefix + e.key)[|ReportPrefix|..] == e.key;
      }
      assert parameters == [parameters[0]] + parameters[1..];
    }
  }

  /** The pinned case: two "report."-prefixed parameters and one without the
      prefix give two counters. */
  lemma ReportExample()
    ensures ReportEntries([(ReportPrefix + "group.firstParam", "11"), (ReportPrefix + "group.secondParam", "22"),
                           ("notReportPrefixed.group.thirdParam", "3123")])
         == [ReportEntry("group.firstParam", Counter, "11"), ReportEntry("group.secondParam", Counter, "22")]
  {
    var ps := [(ReportPrefix + "group.firstParam", "11"), (ReportPrefix + "group.secondParam", "22"),
               ("notReportPrefixed.group.thirdParam", "3123")];
    assert !StartsWith(ps[2].0, ReportPrefix) by { assert ps[2].0[0] != ReportPrefix[0]; }
    assert ReportEntries(ps[2..]) == [] by { assert ps[2..][1..] == []; }
    assert ReportEntries(ps[1..]) == [ReportEntry("group.secondParam", Counter, "22")] + ReportEntries(ps[2..]) by {
      assert ps[1..][1..] == ps[2..];
      assert ps[1].0[|ReportPrefix|..] == "group.secondParam";
    }
    assert ps[0].0[|ReportPrefix|..] == "group.firstParam";
  }
}

// DocumentContentUrlDispatcher: routes each document URL record to the
// named output whose configured mime-type list contains the record's mime
// type. Output names come from a space-separated property and each output's
// mime types from a comma-separated one; the property names are
// parameters here.

module ContentDispatcher {
  import opened Wrappers
  import opened JavaStrings
  import opened RuntimeParameters

  datatype DocumentContentUrl = DocumentContentUrl(id: string, url: string, mimeType: Option<string>, contentSizeKB: int)

  /** The mime types configured for one output; none when the output has no
      mime-type property. */
  function MimeTypesOf(conf: Configuration, mimeTypesPrefix: string, outputName: string): (r: seq<string>)
    ensures mimeTypesPrefix + outputName !in conf ==> r == []
  {
    if mimeTypesPrefix + outputName in conf then Tokens(conf[mimeTypesPrefix + outputName], {','}) else []
  }

  /** The routing entries of one output. */
  function EntriesOf(conf: Configuration, mimeTypesPrefix: string, outputName: string): (m: map<string, string>)
    ensures forall t :: t in m <==> t in MimeTypesOf(conf, mimeTypesPrefix, outputName)
    ensures forall t :: t in m ==> m[t] == outputName
  {
    map t | t in MimeTypesOf(conf, mimeTypesPrefix, outputName) :: outputName
  }

  /** The routing table of the outputs in order; a later output listing the
      same mime type takes it over. */
  function Routing(outputs: seq<string>, conf: Configuration, mimeTypesPrefix: string): (m: map<string, string>)
    ensures forall t :: t in m ==> m[t] in outputs
  {
    if outputs == [] then map[]
    else Routing(outputs[..|outputs| - 1], conf, mimeTypesPrefix) + EntriesOf(conf, mimeTypesPrefix, outputs[|outputs| - 1])
  }

  /** A mime type is routed iff some output lists it, and it is routed to
      an output that lists it. */
  lemma {:induction false} RoutingSpec(outputs: seq<string>, conf: Configuration, mimeTypesPrefix: string, t: string)
    ensures t in Routing(outputs, conf, mimeTypesPrefix) <==>
              exists o :: o in outputs && t in MimeTypesOf(conf, mimeTypesPrefix, o)
    ensures t in Routing(outputs, conf, mimeTypesPrefix) ==>
              Routing(outputs, conf, mimeTypesPrefix)[t] in outputs
              && t in MimeTypesOf(conf, mimeTypesPrefix, Routing(outputs, conf, mimeTypesPrefix)[t])
  {
    if outputs != [] {
      var init := outputs[..|outputs| - 1];
      var last := outputs[|outputs| - 1];
      assert outputs == init + [last];
      RoutingSpec(init, conf, mimeTypesPrefix, t);
      var before := Routing(init, conf, mimeTypesPrefix);
      var entries := EntriesOf(conf, mimeTypesPrefix, last);
      assert Routing(outputs, conf, mimeTypesPrefix) == before + entries;
      if t in MimeTypesOf(conf, mimeTypesPrefix, last) {
        assert (before + entries)[t] == last;
      } else {
        assert t !in entries;
        if exists o :: o in outputs && t in MimeTypesOf(conf, mimeTypesPrefix, o) {
          var o :| o in outputs && t in MimeTypesOf(conf, mimeTypesPrefix, o);
          assert o in init;
        }
      }
    }
  }

  class Dispatcher {
    /** mime type -> output name, built by setup. */
    var routing: map<string, string>
    /** The (output name, record) pairs written to the named outputs. */
    var written: seq<(string, DocumentContentUrl)>
    /** The records written to the job's default output. */
    var contextWritten: seq<DocumentContentUrl>
    var closed: bool

    constructor()
      ensures routing == map[] && written == [] && contextWritten == [] && !closed
    {
      routing := map[];
      written := [];
      contextWritten := [];
      closed := false;
    }

    /** setup: without the multiple-outputs property it is an
        illegal-argument error; otherwise the routing table is built output
        by output. */
    method Setup(conf: Configuration, multipleOutputsProperty: string, mimeTypesPrefix: string) returns (o: Outcome)
      modifies this
      ensures multipleOutputsProperty !in conf ==> o == Fail(IllegalArgument) && routing == old(routing)
      ensures multipleOutputsProperty in conf ==>
                o == Pass && routing == Routing(Tokens(conf[multipleOutputsProperty], {' '}), conf, mimeTypesPrefix)
      ensures written == old(written) && contextWritten == old(contextWritten) && closed == old(closed)
    {
      if multipleOutputsProperty !in conf {
        return Fail(IllegalArgument);
      }
      var outputs := Tokens(conf[multipleOutputsProperty], {' '});
      var table: map<string, string> := map[];
      var i := 0;
      while i < |outputs|
        invariant 0 <= i <= |outputs|
        invariant table == Routing(outputs[..i], conf, mimeTypesPrefix)
      {
        assert outputs[..i + 1][..i] == outputs[..i];
        table := table + EntriesOf(conf, mimeTypesPrefix, outputs[i]);
        i := i + 1;
      }
      assert outputs[..i] == outputs;
      routing := table;
      return Pass;
    }

    /** map: a record whose mime type is routed goes, unchanged, to that
        output; a null or unrouted mime type goes nowhere. Nothing goes to
        the default output. */
    method Map(record: DocumentContentUrl)
      modifies this
      ensures record.mimeType.Some? && record.mimeType.value in routing ==>
                written == old(written) + [(routing[record.mimeType.value], record)]
      ensures !(record.mimeType.Some? && record.mimeType.value in routing) ==> written == old(written)
      ensures routing == old(routing) && contextWritten == old(contextWritten) && closed == old(closed)
    {
      if record.mimeType.Some? && record.mimeType.value in routing {
        written := written + [(routing[record.mimeType.value], record)];
      }
    }

    /** cleanup: the named outputs are closed. */
    method Cleanup()
      modifies this
      ensures closed
      ensures routing == old(routing) && written == old(written) && contextWritten == old(contextWritten)
    {
      closed := true;
    }
  }
}

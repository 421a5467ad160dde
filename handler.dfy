/** The logging handler: newHandler and Handle. The writer (a rotating log
    file) and the process's standard output are modelled as the sequences
    of texts written to them, one entry per write call. */
module Logging {
  import opened Wrappers
  import opened Levels
  import opened LineFormat

  /** The lines a handler with level min writes for the records it is given,
      in call order: dropped records contribute nothing. */
  function Emitted(min: int, records: seq<Record>): (lines: seq<string>)
    ensures |lines| <= |records|
    ensures forall l | l in lines ::
      exists i :: 0 <= i < |records| && Admit(records[i].level, min) && l == Render(records[i])
    decreases |records|
  {
    if records == [] then []
    else
      var last := records[|records| - 1];
      Emitted(min, records[..|records| - 1]) + (if Admit(last.level, min) then [Render(last)] else [])
  }

  /** Output is compositional: records handled later only append lines. */
  lemma {:induction false} EmittedAppend(min: int, earlier: seq<Record>, later: seq<Record>)
    ensures Emitted(min, earlier + later) == Emitted(min, earlier) + Emitted(min, later)
    decreases |later|
  {
    if later != [] {
      var all := earlier + later;
      assert all[..|all| - 1] == earlier + later[..|later| - 1];
      assert all[|all| - 1] == later[|later| - 1];
      EmittedAppend(min, earlier, later[..|later| - 1]);
    } else {
      assert earlier + later == earlier;
    }
  }

  /** One more call adds the record's line when it is admitted and nothing otherwise. */
  lemma EmittedStep(min: int, records: seq<Record>, r: Record)
    ensures Emitted(min, records + [r]) == Emitted(min, records) + (if Admit(r.level, min) then [Render(r)] else [])
  {
    assert (records + [r])[..|records|] == records;
  }

  /** One line per admitted record and none for a dropped one. */
  lemma {:induction false} EmittedCount(min: int, records: seq<Record>)
    ensures |Emitted(min, records)| == |set i | 0 <= i < |records| && Admit(records[i].level, min)|
    decreases |records|
  {
    if records != [] {
      var n := |records| - 1;
      var front := records[..n];
      EmittedCount(min, front);
      var before := set i | 0 <= i < n && Admit(front[i].level, min);
      var after := set i | 0 <= i < |records| && Admit(records[i].level, min);
      assert before == set i | 0 <= i < n && Admit(records[i].level, min);
      if Admit(records[n].level, min) {
        assert after == before + {n};
      } else {
        assert after == before;
      }
    }
  }

  /** A handler writes nothing at all for records that are all below its level. */
  lemma {:induction false} EmittedNothingBelow(min: int, records: seq<Record>)
    requires forall i :: 0 <= i < |records| ==> records[i].level < min
    ensures Emitted(min, records) == []
    decreases |records|
  {
    if records != [] {
      EmittedNothingBelow(min, records[..|records| - 1]);
    }
  }

  class Handler {
    /** The writer's content, as the sequence of texts handed to Write. */
    var sink: seq<string>
    var level: int
    var withStdout: bool
    /** What the handler printed to standard output. */
    var stdout: seq<string>
    /** Every record passed to Handle so far, admitted or not. */
    ghost var handled: seq<Record>

    /** The writer holds exactly the lines for the admitted records, in call
        order, and standard output mirrors it when withStdout is set and is
        untouched otherwise. */
    ghost predicate Valid()
      reads this
      ensures Valid() ==> |stdout| <= |sink| <= |handled|
    {
      sink == Emitted(level, handled) && stdout == (if withStdout then sink else [])
    }

    /** newHandler: a handler over an empty writer. */
    constructor (level: int, withStdout: bool)
      ensures Valid()
      ensures this.level == level && this.withStdout == withStdout
      ensures sink == [] && stdout == [] && handled == []
    {
      this.level := level;
      this.withStdout := withStdout;
      sink := [];
      stdout := [];
      handled := [];
    }

    /** Handle: gates the record, then writes its line to the writer and,
        when withStdout is set, to standard output. The result is always
        None (Go's nil error); the writer's own result is ignored. */
    method Handle(r: Record) returns (err: Option<string>)
      requires Valid()
      modifies this`sink, this`stdout, this`handled
      ensures Valid()
      ensures err == None
      ensures handled == old(handled) + [r]
      ensures !Admit(r.level, level) ==> sink == old(sink) && stdout == old(stdout)
      ensures Admit(r.level, level) ==> sink == old(sink) + [Render(r)]
      ensures Admit(r.level, level) ==> stdout == old(stdout) + (if withStdout then [Render(r)] else [])
    {
      EmittedStep(level, handled, r);
      handled := handled + [r];
      if r.level < level {
        return None;
      }
      var line := FormatLine(r);
      sink := sink + [line];
      if withStdout {
        stdout := stdout + [line];
      }
      return None;
    }
  }

  /** The default handler (level Info) given a Debug, an Info, a Warn and an
      Error record writes the lines of the last three, in that order. */
  lemma DefaultRun(debug: Record, info: Record, warn: Record, error: Record)
    requires debug.level == Debug && info.level == Info && warn.level == Warn && error.level == Error
    ensures Emitted(Info, [debug, info, warn, error]) == [Render(info), Render(warn), Render(error)]
  {
    EmittedAppend(Info, [debug], [info, warn, error]);
    EmittedAppend(Info, [info], [warn, error]);
    EmittedAppend(Info, [warn], [error]);
    assert [debug] + [info, warn, error] == [debug, info, warn, error];
    assert [info] + [warn, error] == [info, warn, error];
    assert [warn] + [error] == [warn, error];
  }

  /** A handler at level Error writes nothing for Debug, Info and Warn
      records and the line of an Error record. */
  lemma ErrorOnlyRun(debug: Record, info: Record, warn: Record, error: Record)
    requires debug.level == Debug && info.level == Info && warn.level == Warn && error.level == Error
    ensures Emitted(Error, [debug, info, warn, error]) == [Render(error)]
  {
    EmittedNothingBelow(Error, [debug, info, warn]);
    EmittedAppend(Error, [debug, info, warn], [error]);
    assert [debug, info, warn] + [error] == [debug, info, warn, error];
  }
}

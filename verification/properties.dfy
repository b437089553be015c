/**
 * What a whole run of `pktdumper` does, stated over `Behaviour`: a refused
 * command line touches neither the input nor the disk, `-n` writes nothing,
 * and otherwise the extradata files and then the packet files are written
 * in order up to the first failed write, which ends the run with status 1.
 */
module Properties {
  import opened Wrappers
  import opened PktDumper
  import opened DumpLoop

  /** A trace without `WriteFile` events wrote nothing. */
  lemma {:induction false} NoWrites(events: seq<Event>)
    requires forall i :: 0 <= i < |events| ==> !events[i].WriteFile?
    ensures Written(events) == []
  {
    if events != [] {
      NoWrites(events[1..]);
    }
  }

  /** The diagnostics printed before the demuxer is opened. */
  lemma UsageWritesNothing(message: seq<Event>)
    requires forall i :: 0 <= i < |message| ==> message[i].Stderr?
    ensures Written(message + USAGE) == []
  {
    NoWrites(message + USAGE);
  }

  /**
   * A command line that is malformed, or whose base name contains '%' or is
   * too long, ends the run with status 1 before the input is opened: nothing
   * is written, and neither the input nor the write failures matter.
   */
  lemma RefusedCommandLine(argv: seq<string>, input: Input, failing: set<nat>, input': Input, failing': set<nat>)
    requires ParseArgs(argv).None? || Rejection(BaseName(ParseArgs(argv).value.path)).Some?
    ensures var o := Behaviour(argv, input, failing);
      && o.ending == Exit(1)
      && Written(o.events) == []
      && Behaviour(argv, input', failing') == o
  {
    match ParseArgs(argv)
    case None =>
      UsageWritesNothing([]);
      assert [] + USAGE == USAGE;
    case Some(opts) =>
      UsageWritesNothing([Stderr(Rejection(BaseName(opts.path)).value)]);
  }

  /** The outcome when the demuxer cannot be opened, probed, or given a packet. */
  lemma OpeningFailed(argv: seq<string>, input: Input, failing: set<nat>)
    requires ParseArgs(argv).Some? && Rejection(BaseName(ParseArgs(argv).value.path)).None?
    requires input.openResult < 0 || input.streamInfoResult < 0 || !input.packetAllocated
    ensures var o := Behaviour(argv, input, failing);
      && o.ending == Exit(1)
      && |o.events| == 1 && o.events[0].Stderr?
      && Written(o.events) == []
  {
    NoWrites(Behaviour(argv, input, failing).events);
  }

  /**
   * Under `-n` nothing is written and no write can fail: the run does not
   * depend on which writes would fail, and once the input is open it prints
   * the line of every step of the plan (each extradata and packet line and
   * the template line) and ends normally, or idles under `-w`.
   */
  lemma DryRunWritesNothing(argv: seq<string>, input: Input, failing: set<nat>)
    requires ParseArgs(argv).Some? && ParseArgs(argv).value.nowrite
    ensures Written(Behaviour(argv, input, failing).events) == []
    ensures Behaviour(argv, input, failing) == Behaviour(argv, input, {})
    ensures var opts := ParseArgs(argv).value;
      var base := BaseName(opts.path);
      Rejection(base).None? && input.openResult >= 0 && input.streamInfoResult >= 0 && input.packetAllocated ==>
        var plan := Plan(base, input, opts.maxpkts);
        Behaviour(argv, input, failing)
          == Outcome(seq(|plan|, i requires 0 <= i < |plan| => Stdout(plan[i].line)),
                     if opts.donotquit then WaitForever else Exit(0))
  {
    var opts := ParseArgs(argv).value;
    var base := BaseName(opts.path);
    if Rejection(base).Some? {
      RefusedCommandLine(argv, input, failing, input, {});
    } else if input.openResult < 0 || input.streamInfoResult < 0 || !input.packetAllocated {
      OpeningFailed(argv, input, failing);
    } else {
      DryRunOpened(argv, input, failing);
      DryRunOpened(argv, input, {});
    }
  }

  /** A dry run once the input is open: the plan's lines, and no write. */
  lemma DryRunOpened(argv: seq<string>, input: Input, failing: set<nat>)
    requires ParseArgs(argv).Some? && ParseArgs(argv).value.nowrite
    requires Rejection(BaseName(ParseArgs(argv).value.path)).None?
    requires input.openResult >= 0 && input.streamInfoResult >= 0 && input.packetAllocated
    ensures var opts := ParseArgs(argv).value;
      var plan := Plan(BaseName(opts.path), input, opts.maxpkts);
      var o := Behaviour(argv, input, failing);
      && o == Outcome(seq(|plan|, i requires 0 <= i < |plan| => Stdout(plan[i].line)),
                      if opts.donotquit then WaitForever else Exit(0))
      && Written(o.events) == []
  {
    var opts := ParseArgs(argv).value;
    var plan := Plan(BaseName(opts.path), input, opts.maxpkts);
    ExecDryRun(plan, failing, 0);
    NoWrites(Exec(plan, true, failing, 0).events);
  }

  /**
   * When writing, the files of the plan (the extradata files, then the
   * packet files) are written in order up to the first failed write attempt;
   * the run ends with status 1 exactly when an attempt failed, and otherwise
   * exits with status 0, or idles under `-w`.
   */
  lemma WritesUpToFirstFailure(argv: seq<string>, input: Input, failing: set<nat>)
    requires ParseArgs(argv).Some? && !ParseArgs(argv).value.nowrite
    requires Rejection(BaseName(ParseArgs(argv).value.path)).None?
    requires input.openResult >= 0 && input.streamInfoResult >= 0 && input.packetAllocated
    ensures var opts := ParseArgs(argv).value;
      var base := BaseName(opts.path);
      var files := DumpFiles(ExtradataSteps(base, input.extradata, |input.extradata|))
                 + DumpFiles(PacketSteps(base, input.packets, DumpCount(|input.packets|, opts.maxpkts)));
      var written := FirstFailure(|files|, failing, 0);
      var o := Behaviour(argv, input, failing);
      && Written(o.events) == files[..written]
      && (o.ending == Exit(1) <==> written < |files|)
      && (written == |files| ==> o.ending == (if opts.donotquit then WaitForever else Exit(0)))
  {
    var opts := ParseArgs(argv).value;
    var base := BaseName(opts.path);
    var plan := Plan(base, input, opts.maxpkts);
    PlanFiles(base, input, opts.maxpkts);
    ExecWrittenFiles(plan, failing, 0);
    ExecWritingEnds(plan, failing, 0);
    DumpFilesCount(plan);
  }
}

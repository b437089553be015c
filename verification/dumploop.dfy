/**
 * The body of `main` in `pktdumper`: after the checks on the command line
 * and the base, the demuxer is opened, each stream's extradata is dumped,
 * then the packets are dumped one file each until the demuxer runs out or
 * the packet limit is reached.
 *
 * The demuxer is an input (the results of opening and probing, the
 * extradata of each stream, and the packets `av_read_frame` returns before
 * its first negative result); the files written and the lines printed are
 * an output trace.
 */
module DumpLoop {
  import opened Wrappers
  import opened Decimal
  import opened Printf
  import opened PktDumper

  datatype Event =
    | Stdout(text: string)
    | Stderr(text: string)
    | WriteFile(name: string, bytes: seq<Byte>)

  /** How the process ends: an exit status, or idling for ever under `-w`. */
  datatype Ending = Exit(code: int) | WaitForever

  datatype Outcome = Outcome(events: seq<Event>, ending: Ending)

  /** What the demuxing library makes of the input file. */
  datatype Input = Input(
    openResult: int,
    streamInfoResult: int,
    packetAllocated: bool,
    extradata: seq<seq<Byte>>,
    packets: seq<Packet>)

  /** What `write` returns when it fails. */
  const WRITE_FAILED := -1

  /** The report of a failed write. */
  const WRITE_ERROR_LINE := ErrorLine("write: error ", WRITE_FAILED)

  /** `ENOMEM`, whose negation is the error reported when no packet can be allocated. */
  const ENOMEM := 12

  const USAGE: seq<Event> := [
    Stderr("Dump (up to maxpkts) AVPackets as they are demuxed by libavformat.\n"),
    Stderr("Each packet is dumped in its own file named like\n"),
    Stderr("$(basename file.ext)_$PKTNUM_$STREAMINDEX_$STAMP_$SIZE_$FLAGS.bin\n"),
    Stderr("pktdumper [-nw] file [maxpkts]\n"),
    Stderr("-n\twrite No file at all, only demux.\n"),
    Stderr("-w\tWait at end of processing instead of quitting.\n")]

  /** A diagnostic of the form "<what>: error <code>". */
  function ErrorLine(prefix: string, err: int): string {
    prefix + PadInt(err, 0, false) + "\n"
  }

  // The reference definition: what the tool does, as a plan of steps.

  /** A line printed on its own, or a line printed followed by a file written. */
  datatype Step = Say(line: string) | Dump(line: string, name: string, bytes: seq<Byte>)

  /** The streams below `n` that carry extradata, in increasing order. */
  function NonEmptyBelow(xs: seq<seq<Byte>>, n: nat): (idx: seq<nat>)
    requires n <= |xs|
    ensures forall j :: 0 <= j < |idx| ==> idx[j] < n
  {
    if n == 0 then []
    else
      var before := NonEmptyBelow(xs, n - 1);
      if |xs[n - 1]| != 0 then before + [n - 1] else before
  }

  /**
   * The streams named are exactly those below `n` with extradata, each
   * once, in increasing order.
   */
  lemma {:induction false} NonEmptyBelowStreams(xs: seq<seq<Byte>>, n: nat)
    requires n <= |xs|
    ensures var idx := NonEmptyBelow(xs, n);
      && (forall j :: 0 <= j < |idx| ==> |xs[idx[j]]| != 0)
      && (forall j, j' :: 0 <= j < j' < |idx| ==> idx[j] < idx[j'])
      && (forall i :: 0 <= i < n && |xs[i]| != 0 ==> i in idx)
  {
    if n > 0 {
      NonEmptyBelowStreams(xs, n - 1);
    }
  }

  function ExtradataDump(base: string, index: nat, bytes: seq<Byte>): Step
    requires |base| < FILENAME_BUF_SIZE
  {
    var suffix := ExtradataSuffix(index, |bytes|);
    Dump(suffix + "\n", FileName(base, suffix), bytes)
  }

  /** One dump for each of the streams below `n` with extradata, in stream order. */
  function ExtradataSteps(base: string, xs: seq<seq<Byte>>, n: nat): seq<Step>
    requires |base| < FILENAME_BUF_SIZE && n <= |xs|
  {
    if n == 0 then []
    else ExtradataSteps(base, xs, n - 1) + (if |xs[n - 1]| != 0 then [ExtradataDump(base, n - 1, xs[n - 1])] else [])
  }

  /**
   * The extradata dumps follow the streams that have extradata, one dump
   * each, in stream order.
   */
  lemma {:induction false} ExtradataStepsInStreamOrder(base: string, xs: seq<seq<Byte>>, n: nat)
    requires |base| < FILENAME_BUF_SIZE && n <= |xs|
    ensures var idx := NonEmptyBelow(xs, n);
      var steps := ExtradataSteps(base, xs, n);
      && |steps| == |idx|
      && forall j :: 0 <= j < |idx| ==> steps[j] == ExtradataDump(base, idx[j], xs[idx[j]])
  {
    if n > 0 {
      ExtradataStepsInStreamOrder(base, xs, n - 1);
      var idx := NonEmptyBelow(xs, n);
      var steps := ExtradataSteps(base, xs, n);
      var before := ExtradataSteps(base, xs, n - 1);
      var idxBefore := NonEmptyBelow(xs, n - 1);
      if |xs[n - 1]| == 0 {
        assert steps == before + [];
      } else {
        var last := ExtradataDump(base, n - 1, xs[n - 1]);
        assert steps == before + [last] && idx == idxBefore + [n - 1];
        forall j | 0 <= j < |idx|
          ensures steps[j] == ExtradataDump(base, idx[j], xs[idx[j]])
        {
          if j < |idxBefore| {
            assert idx[j] == idxBefore[j];
            assert steps[j] == before[j];
          } else {
            assert j == |before| && idx[j] == n - 1;
            assert (before + [last])[|before|] == last;
          }
        }
      }
    }
  }

  function PacketDump(base: string, pktnum: nat, p: Packet): Step
    requires |base| < FILENAME_BUF_SIZE
  {
    var suffix := PacketSuffix(pktnum, p);
    Dump(suffix + "\n", FileName(base, suffix), p.data)
  }

  /** The first `n` packets, numbered 0, 1, 2, ... */
  function PacketSteps(base: string, packets: seq<Packet>, n: nat): seq<Step>
    requires |base| < FILENAME_BUF_SIZE && n <= |packets|
  {
    seq(n, i requires 0 <= i < n => PacketDump(base, i, packets[i]))
  }

  lemma PacketStepsSnoc(base: string, packets: seq<Packet>, n: nat)
    requires |base| < FILENAME_BUF_SIZE && n < |packets|
    ensures PacketSteps(base, packets, n + 1) == PacketSteps(base, packets, n) + [PacketDump(base, n, packets[n])]
  {
    var longer := PacketSteps(base, packets, n + 1);
    var extended := PacketSteps(base, packets, n) + [PacketDump(base, n, packets[n])];
    forall i | 0 <= i < n + 1
      ensures longer[i] == extended[i]
    {
      if i < n {
        assert extended[i] == PacketSteps(base, packets, n)[i];
      }
    }
  }

  /**
   * How many of `n` packets are dumped under the limit `maxpkts`: all of
   * them when it is 0, at most `maxpkts` when it is positive, and at most
   * one when it is negative, since the limit is checked after the count
   * is incremented.
   */
  function DumpCount(n: nat, maxpkts: int): (c: nat)
    ensures c <= n
    ensures maxpkts == 0 ==> c == n
    ensures maxpkts > 0 ==> c <= maxpkts && (c < n ==> c == maxpkts)
    ensures maxpkts < 0 ==> c <= 1 && (c < n ==> c == 1)
  {
    if maxpkts == 0 then n
    else if maxpkts > 0 then (if n < maxpkts then n else maxpkts)
    else (if n < 1 then n else 1)
  }

  /** The line announcing the packet file-name template. */
  function TemplateAnnouncement(template: string): string {
    "FNTEMPLATE: '" + template + "'\n"
  }

  function Plan(base: string, input: Input, maxpkts: int): seq<Step>
    requires |base| < FILENAME_BUF_SIZE
  {
    ExtradataSteps(base, input.extradata, |input.extradata|)
      + [Say(TemplateAnnouncement(base + PKT_FILE_SUFF))]
      + PacketSteps(base, input.packets, DumpCount(|input.packets|, maxpkts))
  }

  /** The files the steps would write, in order. */
  function DumpFiles(steps: seq<Step>): seq<(string, seq<Byte>)> {
    if steps == [] then []
    else (if steps[0].Dump? then [(steps[0].name, steps[0].bytes)] else []) + DumpFiles(steps[1..])
  }

  /** The number of dumps among the steps. */
  function Dumps(steps: seq<Step>): nat {
    if steps == [] then 0 else Attempts(steps[0]) + Dumps(steps[1..])
  }

  /** There is one file per dump. */
  lemma {:induction false} DumpFilesCount(steps: seq<Step>)
    ensures |DumpFiles(steps)| == Dumps(steps)
  {
    if steps != [] {
      DumpFilesCount(steps[1..]);
    }
  }

  /** One outcome followed by another, unless the first already ended the process. */
  function Then(first: Outcome, second: Outcome): Outcome {
    if first.ending == Exit(0) then Outcome(first.events + second.events, second.ending) else first
  }

  /**
   * Carrying out the steps; `k` is the number of dumps before them, which is
   * the index of the next write attempt when writing. Under `-n` (`nowrite`)
   * every line is printed and nothing is written; otherwise a failed write
   * is reported and ends the process with status 1.
   */
  function Exec(steps: seq<Step>, nowrite: bool, failing: set<nat>, k: nat): Outcome
    decreases |steps|
  {
    if steps == [] then Outcome([], Exit(0))
    else Then(StepOutcome(steps[0], nowrite, failing, k), Exec(steps[1..], nowrite, failing, k + Attempts(steps[0])))
  }

  /** Whether a step is a dump, which is a write attempt unless under `-n`. */
  function Attempts(step: Step): nat {
    if step.Dump? then 1 else 0
  }

  /** One step, as the `k`-th dump when it is one. */
  function StepOutcome(step: Step, nowrite: bool, failing: set<nat>, k: nat): Outcome {
    match step
    case Say(line) => Outcome([Stdout(line)], Exit(0))
    case Dump(line, name, bytes) =>
      if nowrite then Outcome([Stdout(line)], Exit(0))
      else if k in failing then Outcome([Stdout(line), Stderr(WRITE_ERROR_LINE)], Exit(1))
      else Outcome([Stdout(line), WriteFile(name, bytes)], Exit(0))
  }

  /** Under `-w` a run that would exit normally idles instead. */
  function Finish(o: Outcome, donotquit: bool): Outcome {
    if donotquit && o.ending == Exit(0) then Outcome(o.events, WaitForever) else o
  }

  /**
   * What a run of `pktdumper` with arguments `argv` does, when the demuxer
   * yields `input` and the write attempts numbered in `failing` fail.
   */
  function Behaviour(argv: seq<string>, input: Input, failing: set<nat>): Outcome {
    match ParseArgs(argv)
    case None => Outcome(USAGE, Exit(1))
    case Some(opts) =>
      var base := BaseName(opts.path);
      match Rejection(base)
      case Some(message) => Outcome([Stderr(message)] + USAGE, Exit(1))
      case None =>
        if input.openResult < 0 then
          Outcome([Stderr(ErrorLine("cannot open input: error ", input.openResult))], Exit(1))
        else if input.streamInfoResult < 0 then
          Outcome([Stderr(ErrorLine("avformat_find_stream_info: error ", input.streamInfoResult))], Exit(1))
        else if !input.packetAllocated then
          Outcome([Stderr(ErrorLine("av_packet_alloc: error ", -ENOMEM))], Exit(1))
        else
          Finish(Exec(Plan(base, input, opts.maxpkts), opts.nowrite, failing, 0), opts.donotquit)
  }

  // Properties of the plan and of carrying it out.

  lemma {:induction false} DumpFilesAppend(a: seq<Step>, b: seq<Step>)
    ensures DumpFiles(a + b) == DumpFiles(a) + DumpFiles(b)
  {
    if a != [] {
      assert (a + b)[1..] == a[1..] + b;
      DumpFilesAppend(a[1..], b);
    } else {
      assert a + b == b;
    }
  }

  /** Steps that are all dumps write one file each, in their order. */
  lemma {:induction false} DumpFilesOfDumps(steps: seq<Step>)
    requires forall i :: 0 <= i < |steps| ==> steps[i].Dump?
    ensures |DumpFiles(steps)| == |steps|
    ensures forall i :: 0 <= i < |steps| ==> DumpFiles(steps)[i] == (steps[i].name, steps[i].bytes)
  {
    if steps != [] {
      DumpFilesOfDumps(steps[1..]);
    }
  }

  lemma {:induction false} DumpsAppend(a: seq<Step>, b: seq<Step>)
    ensures Dumps(a + b) == Dumps(a) + Dumps(b)
  {
    if a != [] {
      assert (a + b)[1..] == a[1..] + b;
      DumpsAppend(a[1..], b);
    } else {
      assert a + b == b;
    }
  }

  /** Steps that are all dumps count one each. */
  lemma {:induction false} AllDumps(steps: seq<Step>)
    requires forall i :: 0 <= i < |steps| ==> steps[i].Dump?
    ensures Dumps(steps) == |steps|
  {
    if steps != [] {
      AllDumps(steps[1..]);
    }
  }

  lemma ThenAssociative(x: Outcome, y: Outcome, z: Outcome)
    ensures Then(Then(x, y), z) == Then(x, Then(y, z))
  {
    if x.ending == Exit(0) && y.ending == Exit(0) {
      assert x.events + y.events + z.events == x.events + (y.events + z.events);
    }
  }

  /** Carrying out two lists of steps one after the other is carrying out their concatenation. */
  lemma {:induction false} ExecAppend(a: seq<Step>, b: seq<Step>, nowrite: bool, failing: set<nat>, k: nat)
    ensures Exec(a + b, nowrite, failing, k)
         == Then(Exec(a, nowrite, failing, k), Exec(b, nowrite, failing, k + Dumps(a)))
    decreases |a|
  {
    if a == [] {
      assert a + b == b;
      assert Then(Outcome([], Exit(0)), Exec(b, nowrite, failing, k)) == Exec(b, nowrite, failing, k) by {
        assert [] + Exec(b, nowrite, failing, k).events == Exec(b, nowrite, failing, k).events;
      }
    } else {
      assert (a + b)[0] == a[0] && (a + b)[1..] == a[1..] + b;
      var k' := k + Attempts(a[0]);
      ExecAppend(a[1..], b, nowrite, failing, k');
      ThenAssociative(StepOutcome(a[0], nowrite, failing, k), Exec(a[1..], nowrite, failing, k'),
                      Exec(b, nowrite, failing, k + Dumps(a)));
    }
  }

  /** A failure in a prefix of the steps decides the outcome of all of them. */
  lemma ExecFailedPrefix(a: seq<Step>, b: seq<Step>, nowrite: bool, failing: set<nat>, k: nat)
    requires Exec(a, nowrite, failing, k).ending != Exit(0)
    ensures Exec(a + b, nowrite, failing, k) == Exec(a, nowrite, failing, k)
  {
    ExecAppend(a, b, nowrite, failing, k);
  }

  /** Under `-n` every step's line is printed, in order, nothing is written and nothing fails. */
  lemma {:induction false} ExecDryRun(steps: seq<Step>, failing: set<nat>, k: nat)
    ensures Exec(steps, true, failing, k)
         == Outcome(seq(|steps|, i requires 0 <= i < |steps| => Stdout(steps[i].line)), Exit(0))
    decreases |steps|
  {
    if steps != [] {
      ExecDryRun(steps[1..], failing, k + Attempts(steps[0]));
    }
  }

  /** The number of write attempts, counted from `k`, before the first one in `failing`, up to `n`. */
  function FirstFailure(n: nat, failing: set<nat>, k: nat): (m: nat)
    ensures m <= n
    ensures forall j :: k <= j < k + m ==> j !in failing
    ensures m < n ==> k + m in failing
  {
    if n == 0 || k in failing then 0 else 1 + FirstFailure(n - 1, failing, k + 1)
  }

  /** The files a trace wrote, in order. */
  function Written(events: seq<Event>): seq<(string, seq<Byte>)> {
    if events == [] then []
    else (if events[0].WriteFile? then [(events[0].name, events[0].bytes)] else []) + Written(events[1..])
  }

  lemma {:induction false} WrittenAppend(a: seq<Event>, b: seq<Event>)
    ensures Written(a + b) == Written(a) + Written(b)
  {
    if a != [] {
      assert (a + b)[1..] == a[1..] + b;
      WrittenAppend(a[1..], b);
    } else {
      assert a + b == b;
    }
  }

  lemma WrittenOfTwo(x: Event, y: Event)
    ensures Written([x, y])
         == (if x.WriteFile? then [(x.name, x.bytes)] else []) + (if y.WriteFile? then [(y.name, y.bytes)] else [])
  {
    assert [x, y][1..] == [y] && [y][1..] == [];
    var fromY := if y.WriteFile? then [(y.name, y.bytes)] else [];
    assert Written([y]) == fromY + Written([]);
    assert fromY + [] == fromY;
  }

  /**
   * When writing, the files are written in the order of the steps up to the
   * first failed write attempt, and none after it.
   */
  lemma {:induction false} ExecWrittenFiles(steps: seq<Step>, failing: set<nat>, k: nat)
    ensures Written(Exec(steps, false, failing, k).events)
         == DumpFiles(steps)[..FirstFailure(|DumpFiles(steps)|, failing, k)]
    decreases |steps|
  {
    if steps != [] {
      var step := steps[0];
      var k' := k + Attempts(step);
      ExecWrittenFiles(steps[1..], failing, k');
      var rest := Exec(steps[1..], false, failing, k');
      var later := DumpFiles(steps[1..]);
      match step
      case Say(line) =>
        assert Exec(steps, false, failing, k).events == [Stdout(line)] + rest.events;
        WrittenAppend([Stdout(line)], rest.events);
        assert DumpFiles(steps) == later;
      case Dump(line, name, bytes) =>
        assert DumpFiles(steps) == [(name, bytes)] + later;
        if k in failing {
          assert Exec(steps, false, failing, k).events == [Stdout(line), Stderr(WRITE_ERROR_LINE)];
          WrittenOfTwo(Stdout(line), Stderr(WRITE_ERROR_LINE));
        } else {
          assert Exec(steps, false, failing, k).events == [Stdout(line), WriteFile(name, bytes)] + rest.events;
          WrittenAppend([Stdout(line), WriteFile(name, bytes)], rest.events);
          WrittenOfTwo(Stdout(line), WriteFile(name, bytes));
          var m' := FirstFailure(|later|, failing, k');
          assert ([(name, bytes)] + later)[..1 + m'] == [(name, bytes)] + later[..m'];
        }
    }
  }

  /**
   * When writing, the run ends normally exactly when no write attempt
   * failed; otherwise it ends with status 1 right after reporting the failure.
   */
  lemma {:induction false} ExecWritingEnds(steps: seq<Step>, failing: set<nat>, k: nat)
    ensures var o := Exec(steps, false, failing, k);
      && (o.ending == Exit(0) <==> FirstFailure(Dumps(steps), failing, k) == Dumps(steps))
      && (o.ending != Exit(0) ==>
            o.ending == Exit(1) && |o.events| > 0 && o.events[|o.events| - 1] == Stderr(WRITE_ERROR_LINE))
    decreases |steps|
  {
    if steps != [] {
      var step := steps[0];
      var k' := k + Attempts(step);
      ExecWritingEnds(steps[1..], failing, k');
      var rest := Exec(steps[1..], false, failing, k');
      match step
      case Say(line) =>
      case Dump(line, name, bytes) =>
        if k !in failing {
          var o := Exec(steps, false, failing, k);
          assert o == Outcome([Stdout(line), WriteFile(name, bytes)] + rest.events, rest.ending);
          if rest.ending != Exit(0) {
            assert o.events[|o.events| - 1] == rest.events[|rest.events| - 1];
          }
        }
    }
  }

  // Lemmas that let the loops of Run follow the plan one step at a time.

  lemma {:induction false} ExtradataStepsPrefix(base: string, xs: seq<seq<Byte>>, i: nat, n: nat)
    requires |base| < FILENAME_BUF_SIZE && i <= n <= |xs|
    ensures ExtradataSteps(base, xs, i) <= ExtradataSteps(base, xs, n)
    decreases n - i
  {
    if i < n {
      ExtradataStepsPrefix(base, xs, i, n - 1);
      var tail := if |xs[n - 1]| != 0 then [ExtradataDump(base, n - 1, xs[n - 1])] else [];
      PrefixTransitive(ExtradataSteps(base, xs, i), ExtradataSteps(base, xs, n - 1), tail);
    }
  }

  lemma PrefixTransitive<T>(a: seq<T>, b: seq<T>, tail: seq<T>)
    requires a <= b
    ensures a <= b + tail
  {
    assert (b + tail)[..|a|] == b[..|a|];
  }

  lemma PacketStepsPrefix(base: string, packets: seq<Packet>, i: nat, n: nat)
    requires |base| < FILENAME_BUF_SIZE && i <= n <= |packets|
    ensures PacketSteps(base, packets, i) <= PacketSteps(base, packets, n)
  {
    var shorter := PacketSteps(base, packets, i);
    var longer := PacketSteps(base, packets, n);
    assert forall j :: 0 <= j < i ==> shorter[j] == longer[j];
  }

  /** Once a prefix of the plan has failed, the rest of the plan changes nothing. */
  lemma ExecFailedWithin(a: seq<Step>, s: seq<Step>, nowrite: bool, failing: set<nat>, k: nat)
    requires a <= s && Exec(a, nowrite, failing, k).ending != Exit(0)
    ensures Exec(s, nowrite, failing, k) == Exec(a, nowrite, failing, k)
  {
    assert s == a + s[|a|..];
    ExecFailedPrefix(a, s[|a|..], nowrite, failing, k);
  }

  /** Carrying out one more step after a prefix that ended normally. */
  lemma ExecExtend(done: seq<Step>, step: Step, nowrite: bool, failing: set<nat>, k: nat,
                   events: seq<Event>, dumps: nat, more: seq<Event>, failed: bool)
    requires Exec(done, nowrite, failing, k) == Outcome(events, Exit(0)) && dumps == k + Dumps(done)
    requires Exec([step], nowrite, failing, dumps) == Outcome(more, if failed then Exit(1) else Exit(0))
    ensures Exec(done + [step], nowrite, failing, k) == Outcome(events + more, if failed then Exit(1) else Exit(0))
    ensures k + Dumps(done + [step]) == dumps + (if step.Dump? then 1 else 0)
  {
    ExecAppend(done, [step], nowrite, failing, k);
    DumpsAppend(done, [step]);
    assert [step][1..] == [];
  }

  /** One more stream's extradata dumped after those before it. */
  lemma ExtradataLoopStep(base: string, xs: seq<seq<Byte>>, i: nat, nowrite: bool, failing: set<nat>,
                          events: seq<Event>, dumps: nat, more: seq<Event>, failed: bool)
    requires |base| < FILENAME_BUF_SIZE && i < |xs| && |xs[i]| != 0
    requires Exec(ExtradataSteps(base, xs, i), nowrite, failing, 0) == Outcome(events, Exit(0))
    requires dumps == Dumps(ExtradataSteps(base, xs, i))
    requires Exec([ExtradataDump(base, i, xs[i])], nowrite, failing, dumps)
          == Outcome(more, if failed then Exit(1) else Exit(0))
    ensures Exec(ExtradataSteps(base, xs, i + 1), nowrite, failing, 0)
         == Outcome(events + more, if failed then Exit(1) else Exit(0))
    ensures dumps + 1 == Dumps(ExtradataSteps(base, xs, i + 1))
  {
    ExecExtend(ExtradataSteps(base, xs, i), ExtradataDump(base, i, xs[i]), nowrite, failing, 0,
               events, dumps, more, failed);
  }

  /** A stream without extradata adds nothing to the plan. */
  lemma ExtradataLoopSkip(base: string, xs: seq<seq<Byte>>, i: nat)
    requires |base| < FILENAME_BUF_SIZE && i < |xs| && |xs[i]| == 0
    ensures ExtradataSteps(base, xs, i + 1) == ExtradataSteps(base, xs, i)
  {
    assert ExtradataSteps(base, xs, i) + [] == ExtradataSteps(base, xs, i);
  }

  /** A failure while dumping the extradata of the first streams is the outcome of the whole loop. */
  lemma ExtradataFailed(base: string, xs: seq<seq<Byte>>, i: nat, n: nat, nowrite: bool, failing: set<nat>)
    requires |base| < FILENAME_BUF_SIZE && i <= n <= |xs|
    requires Exec(ExtradataSteps(base, xs, i), nowrite, failing, 0).ending != Exit(0)
    ensures Exec(ExtradataSteps(base, xs, n), nowrite, failing, 0) == Exec(ExtradataSteps(base, xs, i), nowrite, failing, 0)
  {
    ExtradataStepsPrefix(base, xs, i, n);
    ExecFailedWithin(ExtradataSteps(base, xs, i), ExtradataSteps(base, xs, n), nowrite, failing, 0);
  }

  /** One more packet dumped after those before it. */
  lemma PacketLoopStep(base: string, packets: seq<Packet>, n: nat, nowrite: bool, failing: set<nat>, first: nat,
                       events: seq<Event>, dumps: nat, more: seq<Event>, failed: bool)
    requires |base| < FILENAME_BUF_SIZE && n < |packets|
    requires Exec(PacketSteps(base, packets, n), nowrite, failing, first) == Outcome(events, Exit(0))
    requires dumps == first + Dumps(PacketSteps(base, packets, n))
    requires Exec([PacketDump(base, n, packets[n])], nowrite, failing, dumps)
          == Outcome(more, if failed then Exit(1) else Exit(0))
    ensures Exec(PacketSteps(base, packets, n + 1), nowrite, failing, first)
         == Outcome(events + more, if failed then Exit(1) else Exit(0))
    ensures dumps + 1 == first + Dumps(PacketSteps(base, packets, n + 1))
  {
    PacketStepsSnoc(base, packets, n);
    ExecExtend(PacketSteps(base, packets, n), PacketDump(base, n, packets[n]), nowrite, failing, first,
               events, dumps, more, failed);
  }

  /** Every packet step is a dump. */
  lemma PacketDumpCount(base: string, packets: seq<Packet>, n: nat)
    requires |base| < FILENAME_BUF_SIZE && n <= |packets|
    ensures Dumps(PacketSteps(base, packets, n)) == n
  {
    var steps := PacketSteps(base, packets, n);
    assert forall i :: 0 <= i < n ==> steps[i].Dump?;
    AllDumps(steps);
  }

  /**
   * The packet files of the plan: packet `i` goes to the name built from
   * packet number `i`, and its file holds the packet's payload.
   */
  lemma PacketFiles(base: string, packets: seq<Packet>, n: nat)
    requires |base| < FILENAME_BUF_SIZE && n <= |packets|
    ensures var files := DumpFiles(PacketSteps(base, packets, n));
      && |files| == n
      && forall i :: 0 <= i < n ==> files[i] == (FileName(base, PacketSuffix(i, packets[i])), packets[i].data)
  {
    var steps := PacketSteps(base, packets, n);
    assert forall i :: 0 <= i < n ==> steps[i] == PacketDump(base, i, packets[i]);
    DumpFilesOfDumps(steps);
  }

  /**
   * The extradata files of the plan: one per stream with extradata, in
   * stream order, each named after its stream and size and holding the
   * stream's extradata.
   */
  lemma ExtradataFiles(base: string, xs: seq<seq<Byte>>)
    requires |base| < FILENAME_BUF_SIZE
    ensures var idx := NonEmptyBelow(xs, |xs|);
      var files := DumpFiles(ExtradataSteps(base, xs, |xs|));
      && |files| == |idx|
      && forall j :: 0 <= j < |idx| ==>
           files[j] == (FileName(base, ExtradataSuffix(idx[j], |xs[idx[j]]|)), xs[idx[j]])
  {
    var steps := ExtradataSteps(base, xs, |xs|);
    ExtradataStepsInStreamOrder(base, xs, |xs|);
    DumpFilesOfDumps(steps);
  }

  /** The files of the plan: the extradata files, then the packet files. */
  lemma PlanFiles(base: string, input: Input, maxpkts: int)
    requires |base| < FILENAME_BUF_SIZE
    ensures DumpFiles(Plan(base, input, maxpkts))
         == DumpFiles(ExtradataSteps(base, input.extradata, |input.extradata|))
          + DumpFiles(PacketSteps(base, input.packets, DumpCount(|input.packets|, maxpkts)))
  {
    DumpFilesAroundSay(ExtradataSteps(base, input.extradata, |input.extradata|),
                       TemplateAnnouncement(base + PKT_FILE_SUFF),
                       PacketSteps(base, input.packets, DumpCount(|input.packets|, maxpkts)));
  }

  lemma DumpFilesAroundSay(a: seq<Step>, line: string, b: seq<Step>)
    ensures DumpFiles(a + [Say(line)] + b) == DumpFiles(a) + DumpFiles(b)
  {
    DumpFilesAppend(a + [Say(line)], b);
    DumpFilesAppend(a, [Say(line)]);
    assert DumpFiles([Say(line)]) == [] by {
      assert [Say(line)][1..] == [];
    }
    assert DumpFiles(a) + [] == DumpFiles(a);
  }

  /** A failure while dumping the first packets is the outcome of the whole loop. */
  lemma PacketsFailed(base: string, packets: seq<Packet>, i: nat, n: nat, nowrite: bool, failing: set<nat>, first: nat)
    requires |base| < FILENAME_BUF_SIZE && i <= n <= |packets|
    requires Exec(PacketSteps(base, packets, i), nowrite, failing, first).ending != Exit(0)
    ensures Exec(PacketSteps(base, packets, n), nowrite, failing, first)
         == Exec(PacketSteps(base, packets, i), nowrite, failing, first)
  {
    PacketStepsPrefix(base, packets, i, n);
    ExecFailedWithin(PacketSteps(base, packets, i), PacketSteps(base, packets, n), nowrite, failing, first);
  }

  lemma ExecFailedFirst(a: seq<Step>, line: string, b: seq<Step>, nowrite: bool, failing: set<nat>)
    requires Exec(a, nowrite, failing, 0).ending != Exit(0)
    ensures Exec(a + [Say(line)] + b, nowrite, failing, 0) == Exec(a, nowrite, failing, 0)
  {
    ExecFailedPrefix(a, [Say(line)], nowrite, failing, 0);
    ExecFailedPrefix(a + [Say(line)], b, nowrite, failing, 0);
  }

  lemma ExecThreeParts(a: seq<Step>, line: string, b: seq<Step>, nowrite: bool, failing: set<nat>,
                       events: seq<Event>, dumps: nat, more: seq<Event>, failed: bool)
    requires Exec(a, nowrite, failing, 0) == Outcome(events, Exit(0)) && dumps == Dumps(a)
    requires Exec(b, nowrite, failing, dumps) == Outcome(more, if failed then Exit(1) else Exit(0))
    ensures Exec(a + [Say(line)] + b, nowrite, failing, 0)
         == Outcome(events + [Stdout(line)] + more, if failed then Exit(1) else Exit(0))
  {
    ExecExtend(a, Say(line), nowrite, failing, 0, events, dumps, [Stdout(line)], false);
    ExecAppend(a + [Say(line)], b, nowrite, failing, 0);
  }

  /** A failure while dumping the extradata is the outcome of the whole plan. */
  lemma PlanExtradataFailed(base: string, input: Input, maxpkts: int, nowrite: bool, failing: set<nat>)
    requires |base| < FILENAME_BUF_SIZE
    requires Exec(ExtradataSteps(base, input.extradata, |input.extradata|), nowrite, failing, 0).ending != Exit(0)
    ensures Exec(Plan(base, input, maxpkts), nowrite, failing, 0)
         == Exec(ExtradataSteps(base, input.extradata, |input.extradata|), nowrite, failing, 0)
  {
    ExecFailedFirst(ExtradataSteps(base, input.extradata, |input.extradata|),
                    TemplateAnnouncement(base + PKT_FILE_SUFF),
                    PacketSteps(base, input.packets, DumpCount(|input.packets|, maxpkts)), nowrite, failing);
  }

  /**
   * The plan carried out in its three parts: the extradata dumps, the
   * template line, then the packet dumps numbered on from the extradata dumps.
   */
  lemma PlanParts(base: string, input: Input, maxpkts: int, nowrite: bool, failing: set<nat>,
                  events: seq<Event>, dumps: nat, more: seq<Event>, failed: bool)
    requires |base| < FILENAME_BUF_SIZE
    requires Exec(ExtradataSteps(base, input.extradata, |input.extradata|), nowrite, failing, 0)
          == Outcome(events, Exit(0))
    requires dumps == Dumps(ExtradataSteps(base, input.extradata, |input.extradata|))
    requires Exec(PacketSteps(base, input.packets, DumpCount(|input.packets|, maxpkts)), nowrite, failing, dumps)
          == Outcome(more, if failed then Exit(1) else Exit(0))
    ensures Exec(Plan(base, input, maxpkts), nowrite, failing, 0)
         == Outcome(events + [Stdout(TemplateAnnouncement(base + PKT_FILE_SUFF))] + more,
                    if failed then Exit(1) else Exit(0))
  {
    ExecThreeParts(ExtradataSteps(base, input.extradata, |input.extradata|),
                   TemplateAnnouncement(base + PKT_FILE_SUFF),
                   PacketSteps(base, input.packets, DumpCount(|input.packets|, maxpkts)),
                   nowrite, failing, events, dumps, more, failed);
  }

  /**
   * The tool's main function after the command line is accepted: print and
   * write what the plan says, one step at a time, stopping at the first
   * failed write. It behaves exactly as the reference definition says.
   */
  method Run(argv: seq<string>, input: Input, failing: set<nat>) returns (out: Outcome)
    ensures out == Behaviour(argv, input, failing)
  {
    var parsed := ParseArgs(argv);
    if parsed.None? {
      return Outcome(USAGE, Exit(1));
    }
    var opts := parsed.value;
    var base := BaseName(opts.path);
    var rejection := Rejection(base);
    if rejection.Some? {
      return Outcome([Stderr(rejection.value)] + USAGE, Exit(1));
    }
    if input.openResult < 0 {
      return Outcome([Stderr(ErrorLine("cannot open input: error ", input.openResult))], Exit(1));
    }
    if input.streamInfoResult < 0 {
      return Outcome([Stderr(ErrorLine("avformat_find_stream_info: error ", input.streamInfoResult))], Exit(1));
    }
    if !input.packetAllocated {
      return Outcome([Stderr(ErrorLine("av_packet_alloc: error ", -ENOMEM))], Exit(1));
    }
    out := DumpAll(base, input, opts.nowrite, opts.maxpkts, failing);
    if opts.donotquit && out.ending == Exit(0) {
      out := Outcome(out.events, WaitForever);
    }
  }

  /**
   * Printing the line for one file and, unless `nowrite`, writing the file:
   * a failed write, the `attempt`-th, is reported and ends the process.
   */
  method DumpOne(line: string, name: string, bytes: seq<Byte>, nowrite: bool, failing: set<nat>, attempt: nat)
    returns (events: seq<Event>, failed: bool)
    ensures Exec([Dump(line, name, bytes)], nowrite, failing, attempt)
         == Outcome(events, if failed then Exit(1) else Exit(0))
  {
    events := [Stdout(line)];
    failed := false;
    if !nowrite {
      if attempt in failing {
        events := events + [Stderr(WRITE_ERROR_LINE)];
        failed := true;
        return;
      }
      events := events + [WriteFile(name, bytes)];
    }
  }

  /** One iteration of the stream loop for a stream with extradata. */
  method DumpExtradataFile(template: string, base: string, index: nat, bytes: seq<Byte>,
                           nowrite: bool, failing: set<nat>, attempt: nat)
    returns (events: seq<Event>, failed: bool)
    requires Rejection(base).None? && template == base + EXTRADATA_FILE_SUFF
    ensures Exec([ExtradataDump(base, index, bytes)], nowrite, failing, attempt)
         == Outcome(events, if failed then Exit(1) else Exit(0))
  {
    var name, line := ExtradataNames(template, base, index, |bytes|);
    events, failed := DumpOne(line, name, bytes, nowrite, failing, attempt);
  }

  /** One iteration of the packet loop. */
  method DumpPacketFile(template: string, base: string, pktnum: nat, p: Packet,
                        nowrite: bool, failing: set<nat>, attempt: nat)
    returns (events: seq<Event>, failed: bool)
    requires Rejection(base).None? && template == base + PKT_FILE_SUFF
    ensures Exec([PacketDump(base, pktnum, p)], nowrite, failing, attempt)
         == Outcome(events, if failed then Exit(1) else Exit(0))
  {
    var name, line := PacketNames(template, base, pktnum, p);
    events, failed := DumpOne(line, name, p.data, nowrite, failing, attempt);
  }

  /** One iteration of the packet loop, carrying the loop's invariant from `n` packets to `n + 1`. */
  method DumpNextPacket(template: string, base: string, packets: seq<Packet>, n: nat, total: nat, nowrite: bool,
                        failing: set<nat>, first: nat, events: seq<Event>, dumps: nat)
    returns (events': seq<Event>, failed: bool)
    requires Rejection(base).None? && template == base + PKT_FILE_SUFF && n < total <= |packets|
    requires Exec(PacketSteps(base, packets, n), nowrite, failing, first) == Outcome(events, Exit(0))
    requires dumps == first + n
    ensures !failed ==> Exec(PacketSteps(base, packets, n + 1), nowrite, failing, first) == Outcome(events', Exit(0))
    ensures failed ==> Exec(PacketSteps(base, packets, total), nowrite, failing, first) == Outcome(events', Exit(1))
  {
    PacketDumpCount(base, packets, n);
    var more;
    more, failed := DumpPacketFile(template, base, n, packets[n], nowrite, failing, dumps);
    PacketLoopStep(base, packets, n, nowrite, failing, first, events, dumps, more, failed);
    events' := events + more;
    if failed {
      PacketsFailed(base, packets, n + 1, total, nowrite, failing, first);
    }
  }

  /** One iteration of the stream loop, carrying the loop's invariant from `i` streams to `i + 1`. */
  method DumpStreamExtradata(template: string, base: string, xs: seq<seq<Byte>>, i: nat, nowrite: bool,
                             failing: set<nat>, events: seq<Event>, dumps: nat)
    returns (events': seq<Event>, dumps': nat, failed: bool)
    requires Rejection(base).None? && template == base + EXTRADATA_FILE_SUFF && i < |xs|
    requires Exec(ExtradataSteps(base, xs, i), nowrite, failing, 0) == Outcome(events, Exit(0))
    requires dumps == Dumps(ExtradataSteps(base, xs, i))
    ensures !failed ==> Exec(ExtradataSteps(base, xs, i + 1), nowrite, failing, 0) == Outcome(events', Exit(0))
    ensures !failed ==> dumps' == Dumps(ExtradataSteps(base, xs, i + 1))
    ensures failed ==> Exec(ExtradataSteps(base, xs, |xs|), nowrite, failing, 0) == Outcome(events', Exit(1))
  {
    if |xs[i]| != 0 {
      var more;
      more, failed := DumpExtradataFile(template, base, i, xs[i], nowrite, failing, dumps);
      ExtradataLoopStep(base, xs, i, nowrite, failing, events, dumps, more, failed);
      events', dumps' := events + more, dumps + 1;
      if failed {
        ExtradataFailed(base, xs, i + 1, |xs|, nowrite, failing);
      }
    } else {
      ExtradataLoopSkip(base, xs, i);
      events', dumps', failed := events, dumps, false;
    }
  }

  /** The `snprintf` and `printf` of an extradata dump produce its file name and its line. */
  method ExtradataNames(template: string, base: string, index: int, size: int) returns (name: string, line: string)
    requires Rejection(base).None? && template == base + EXTRADATA_FILE_SUFF
    ensures name == FileName(base, ExtradataSuffix(index, size)) && line == ExtradataSuffix(index, size) + "\n"
  {
    var args := ExtradataArgs(index, size);
    ExtradataName(base, index, size);
    var buffer := Snprintf(FILENAME_BUF_SIZE, template, args);
    var printed := Format(EXTRADATA_FILE_SUFF + "\n", args);
    name, line := buffer.value, printed.value;
  }

  /** The `snprintf` and `printf` of a packet dump produce its file name and its line. */
  method PacketNames(template: string, base: string, pktnum: int, p: Packet) returns (name: string, line: string)
    requires Rejection(base).None? && template == base + PKT_FILE_SUFF
    ensures name == FileName(base, PacketSuffix(pktnum, p)) && line == PacketSuffix(pktnum, p) + "\n"
  {
    var args := PacketArgs(pktnum, p);
    PacketName(base, pktnum, p);
    var buffer := Snprintf(FILENAME_BUF_SIZE, template, args);
    var printed := Format(PKT_FILE_SUFF + "\n", args);
    name, line := buffer.value, printed.value;
  }

  /** The `printf` announcing the packet template prints the template. */
  method Announce(template: string) returns (line: string)
    ensures line == TemplateAnnouncement(template)
  {
    TemplateLine(template);
    var printed := Format(TEMPLATE_LINE_FMT, [Str(template)]);
    line := printed.value;
  }

  /** The loop over the streams: each stream's extradata, if it has any, is dumped to its own file. */
  method DumpExtradata(base: string, xs: seq<seq<Byte>>, nowrite: bool, failing: set<nat>)
    returns (events: seq<Event>, dumps: nat, failed: bool)
    requires Rejection(base).None?
    ensures Exec(ExtradataSteps(base, xs, |xs|), nowrite, failing, 0)
         == Outcome(events, if failed then Exit(1) else Exit(0))
    ensures !failed ==> dumps == Dumps(ExtradataSteps(base, xs, |xs|))
  {
    events, dumps, failed := [], 0, false;
    var template := base + EXTRADATA_FILE_SUFF;
    for i := 0 to |xs|
      invariant Exec(ExtradataSteps(base, xs, i), nowrite, failing, 0) == Outcome(events, Exit(0))
      invariant dumps == Dumps(ExtradataSteps(base, xs, i))
    {
      events, dumps, failed := DumpStreamExtradata(template, base, xs, i, nowrite, failing, events, dumps);
      if failed {
        return;
      }
    }
  }

  /**
   * The loop over the packets the demuxer returns: each is dumped to its own
   * file, numbered from 0, until there are no more or `maxpkts` have been
   * dumped. The write attempts are numbered from `first`.
   */
  method DumpPackets(base: string, packets: seq<Packet>, maxpkts: int, nowrite: bool, failing: set<nat>, first: nat)
    returns (events: seq<Event>, failed: bool)
    requires Rejection(base).None?
    ensures Exec(PacketSteps(base, packets, DumpCount(|packets|, maxpkts)), nowrite, failing, first)
         == Outcome(events, if failed then Exit(1) else Exit(0))
  {
    events, failed := [], false;
    var template := base + PKT_FILE_SUFF;
    var dumps := first;
    var pktnum: nat := 0;
    while pktnum < |packets|
      invariant pktnum <= |packets|
      invariant pktnum == 0 || maxpkts == 0 || pktnum < maxpkts
      invariant Exec(PacketSteps(base, packets, pktnum), nowrite, failing, first) == Outcome(events, Exit(0))
      invariant dumps == first + pktnum
      decreases |packets| - pktnum
    {
      events, failed := DumpNextPacket(template, base, packets, pktnum, DumpCount(|packets|, maxpkts),
                                       nowrite, failing, first, events, dumps);
      if failed {
        return;
      }
      dumps := dumps + 1;
      pktnum := pktnum + 1;
      if maxpkts != 0 && pktnum >= maxpkts {
        break;
      }
    }
    assert pktnum == DumpCount(|packets|, maxpkts);
  }

  /**
   * The two dump loops of the main function, with the template announced
   * between them.
   */
  method DumpAll(base: string, input: Input, nowrite: bool, maxpkts: int, failing: set<nat>) returns (out: Outcome)
    requires Rejection(base).None?
    ensures out == Exec(Plan(base, input, maxpkts), nowrite, failing, 0)
  {
    var events, dumps, failed := DumpExtradata(base, input.extradata, nowrite, failing);
    if failed {
      PlanExtradataFailed(base, input, maxpkts, nowrite, failing);
      return Outcome(events, Exit(1));
    }
    var announcement := Announce(base + PKT_FILE_SUFF);
    var more;
    more, failed := DumpPackets(base, input.packets, maxpkts, nowrite, failing, dumps);
    PlanParts(base, input, maxpkts, nowrite, failing, events, dumps, more, failed);
    out := Outcome(events + [Stdout(announcement)] + more, if failed then Exit(1) else Exit(0));
  }
}

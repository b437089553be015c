/**
 * The tool `pktdumper` of FFmpeg, up to its dump loop: the command line, the
 * output-name template derived from the input path and its validation, and
 * the names of the files the dump loop writes (the loop itself is in
 * module DumpLoop).
 */
module PktDumper {
  import opened Wrappers
  import opened Decimal
  import opened CString
  import opened Printf

  /** The size of each of the three name buffers. */
  const FILENAME_BUF_SIZE: nat := 4096

  /**
   * How <inttypes.h> spells the `printf` conversion of an `int64_t`; "ld" on
   * LP64 platforms, "lld" elsewhere (which makes the packet suffix two bytes longer).
   */
  const PRID64 := "ld"

  /** The conversions that follow the base in a packet's file name. */
  const PKT_FILE_SUFF := "_%08" + PRID64 + "_%02d_%010" + PRID64 + "_%06d_%c.bin"

  /** The conversions that follow the base in an extradata file's name. */
  const EXTRADATA_FILE_SUFF := "_extradata_%02d_%06d.bin"

  /** `sizeof(PKTFILESUFF)`: its characters and the terminating NUL. */
  const PKT_FILE_SUFF_SIZE: nat := |PKT_FILE_SUFF| + 1

  /** The key-frame bit of a packet's flags. */
  const AV_PKT_FLAG_KEY: bv32 := 1

  newtype Byte = b: int | 0 <= b < 256

  type Int32 = v: int | -0x8000_0000 <= v < 0x8000_0000

  type Int64 = v: int | -0x8000_0000_0000_0000 <= v < 0x8000_0000_0000_0000

  /** A demuxed packet: the fields the tool reads; its size is the length of its payload. */
  datatype Packet = Packet(streamIndex: Int32, pts: Int64, flags: bv32, data: seq<Byte>)

  /** What the command line asks for. */
  datatype Options = Options(donotquit: bool, nowrite: bool, path: string, maxpkts: int)

  /** Whether `argv[1]` exists and begins with '-', so that it is taken as the flags. */
  predicate HasFlagArg(argv: seq<string>) {
    |argv| > 1 && |argv[1]| > 0 && argv[1][0] == '-'
  }

  /**
   * `pktdumper [-nw] file [maxpkts]`. A leading argument that starts with '-'
   * is consumed as flags: 'w' anywhere in it asks to wait at the end, 'n'
   * to write nothing, and any other character is ignored. Without an input
   * path left the result is a usage error (None). A further argument is read
   * with `atoi` as the packet limit; later ones are ignored.
   */
  function ParseArgs(argv: seq<string>): (r: Option<Options>)
    ensures var first := if HasFlagArg(argv) then 2 else 1;
      && (r.None? <==> |argv| <= first)
      && (r.Some? ==>
            && r.value.path == argv[first]
            && r.value.donotquit == (first == 2 && 'w' in argv[1])
            && r.value.nowrite == (first == 2 && 'n' in argv[1])
            && r.value.maxpkts == (if |argv| > first + 1 then Atoi(argv[first + 1]) else 0))
  {
    var flagged := HasFlagArg(argv);
    var donotquit := flagged && 'w' in argv[1];
    var nowrite := flagged && 'n' in argv[1];
    var args := if flagged then argv[1..] else argv;
    if |args| < 2 then None
    else Some(Options(donotquit, nowrite, args[1], if |args| > 2 then Atoi(args[2]) else 0))
  }

  /** The part of the path after its last '/' (all of it when it has none). */
  function LastComponent(path: string): (r: string)
    ensures '/' !in r && |r| <= |path| && r == path[|path| - |r|..]
    ensures |r| < |path| ==> path[|path| - |r| - 1] == '/'
  {
    match LastIndexOf(path, '/')
    case None => path
    case Some(i) => path[i + 1..]
  }

  /**
   * The base of every output name: the input path is copied into the
   * template buffer (replaced by a copy of the part after its last '/' when
   * there is one), and the copy is cut at its last '.'.
   */
  function BaseName(path: string): (base: string)
    ensures var comp := Strlcpy(LastComponent(path), FILENAME_BUF_SIZE);
      && base <= comp && '/' !in base && |base| < FILENAME_BUF_SIZE
      && ('.' !in comp ==> base == comp)
      && ('.' in comp ==> |base| < |comp| && comp[|base|] == '.' && '.' !in comp[|base| + 1..])
  {
    var template := Strlcpy(LastComponent(path), FILENAME_BUF_SIZE);
    NoSlashInPrefix(LastComponent(path), template);
    match LastIndexOf(template, '.')
    case None => template
    case Some(i) =>
      assert template[i + 1..] == template[|template[..i]| + 1..];
      template[..i]
  }

  lemma NoSlashInPrefix(s: string, t: string)
    requires t <= s && '/' !in s
    ensures '/' !in t
  {
    assert forall k :: 0 <= k < |t| ==> t[k] == s[k];
  }

  const PERCENT_MESSAGE := "cannot use filenames containing '%'\n"

  const TOO_LONG_MESSAGE := "filename too long\n"

  /**
   * The checks on the base made before the input is opened: the message
   * printed ahead of the usage text when the base is refused, None when it
   * is accepted. An accepted base leaves room in the template buffers for
   * both suffixes and their NUL.
   */
  function Rejection(base: string): (r: Option<string>)
    ensures r.None? <==> '%' !in base && |base| + PKT_FILE_SUFF_SIZE < FILENAME_BUF_SIZE - 1
    ensures '%' in base ==> r == Some(PERCENT_MESSAGE)
    ensures '%' !in base && r.Some? ==> r == Some(TOO_LONG_MESSAGE)
    ensures r.None? ==>
      |base + PKT_FILE_SUFF| + 1 <= FILENAME_BUF_SIZE && |base + EXTRADATA_FILE_SUFF| + 1 <= FILENAME_BUF_SIZE
  {
    assert |PKT_FILE_SUFF| == 30 && |EXTRADATA_FILE_SUFF| == 24;
    if '%' in base then Some(PERCENT_MESSAGE)
    else if |base| + PKT_FILE_SUFF_SIZE >= FILENAME_BUF_SIZE - 1 then Some(TOO_LONG_MESSAGE)
    else None
  }

  /** The flag character of a packet's name: 'K' for a key frame, '_' otherwise. */
  function KeyChar(flags: bv32): char {
    if flags & AV_PKT_FLAG_KEY != 0 then 'K' else '_'
  }

  /** What `EXTRADATAFILESUFF` expands to for stream `index` with `size` bytes of extradata. */
  function ExtradataSuffix(index: int, size: int): string {
    "_extradata_" + PadInt(index, 2, true) + "_" + PadInt(size, 6, true) + ".bin"
  }

  /** What `PKTFILESUFF` expands to for packet number `pktnum`. */
  function PacketSuffix(pktnum: int, p: Packet): string {
    "_" + PadInt(pktnum, 8, true) + "_" + PadInt(p.streamIndex, 2, true)
      + "_" + PadInt(p.pts, 10, true) + "_" + PadInt(|p.data|, 6, true)
      + "_" + [KeyChar(p.flags)] + ".bin"
  }

  function ExtradataArgs(index: int, size: int): seq<Arg> {
    [Int(index), Int(size)]
  }

  function PacketArgs(pktnum: int, p: Packet): seq<Arg> {
    [Int(pktnum), Int(p.streamIndex), Int(p.pts), Int(|p.data|), Chr(KeyChar(p.flags))]
  }

  /**
   * A file name as `snprintf` leaves it in a name buffer: the base, then the
   * expanded suffix, cut to the buffer. The base always survives whole; the
   * suffix may not.
   */
  function FileName(base: string, suffix: string): (name: string)
    requires |base| < FILENAME_BUF_SIZE
    ensures base <= name && name <= base + suffix && |name| < FILENAME_BUF_SIZE
    ensures |base + suffix| < FILENAME_BUF_SIZE ==> name == base + suffix
    ensures |base + suffix| >= FILENAME_BUF_SIZE ==> |name| == FILENAME_BUF_SIZE - 1
  {
    var full := base + suffix;
    if |full| < FILENAME_BUF_SIZE then full
    else
      assert full[..|base|] == base;
      full[..FILENAME_BUF_SIZE - 1]
  }

  lemma ZeroIntSpecs()
    ensures ZeroIntSpec(2, "") == "%02d" && ZeroIntSpec(6, "") == "%06d"
    ensures ZeroIntSpec(8, "l") == "%08ld" && ZeroIntSpec(10, "l") == "%010ld"
  {
    assert Digits(2) == "2" && Digits(6) == "6" && Digits(8) == "8";
    assert Digits(10) == Digits(1) + "0";
  }

  /** The expansion of `EXTRADATAFILESUFF`, followed by any text without '%'. */
  lemma ExtradataFormat(tail: string, index: int, size: int)
    requires '%' !in tail
    ensures Format(EXTRADATA_FILE_SUFF + tail, ExtradataArgs(index, size))
         == Some(ExtradataSuffix(index, size) + tail)
  {
    var r2 := ".bin" + tail;
    ExtradataTemplateText(tail);
    ExtradataFormatSteps(r2, index, size);
    Associate("_extradata_", PadInt(index, 2, true), "_", PadInt(size, 6, true), ".bin", tail);
  }

  lemma ExtradataTemplateText(tail: string)
    ensures EXTRADATA_FILE_SUFF + tail
         == "_extradata_" + (ZeroIntSpec(2, "") + ("_" + (ZeroIntSpec(6, "") + (".bin" + tail))))
  {
    ZeroIntSpecs();
  }

  lemma ExtradataFormatSteps(r2: string, index: int, size: int)
    requires '%' !in r2
    ensures Format("_extradata_" + (ZeroIntSpec(2, "") + ("_" + (ZeroIntSpec(6, "") + r2))), [Int(index), Int(size)])
         == Some("_extradata_" + (PadInt(index, 2, true) + ("_" + (PadInt(size, 6, true) + r2))))
  {
    var r1 := "_" + (ZeroIntSpec(6, "") + r2);
    FormatLiteral(r2, "", []);
    assert r2 + "" == r2;
    FormatZeroInt(6, "", r2, size, []);
    assert [Int(size)] + [] == [Int(size)];
    FormatLiteral("_", ZeroIntSpec(6, "") + r2, [Int(size)]);
    FormatZeroInt(2, "", r1, index, [Int(size)]);
    assert [Int(index)] + [Int(size)] == [Int(index), Int(size)];
    FormatLiteral("_extradata_", ZeroIntSpec(2, "") + r1, [Int(index), Int(size)]);
  }

  lemma Associate(a: string, b: string, c: string, d: string, e: string, f: string)
    ensures a + (b + (c + (d + (e + f)))) == a + b + c + d + e + f
  {
  }

  /** The expansion of `PKTFILESUFF`, followed by any text without '%'. */
  lemma PacketFormat(tail: string, pktnum: int, p: Packet)
    requires '%' !in tail
    ensures Format(PKT_FILE_SUFF + tail, PacketArgs(pktnum, p)) == Some(PacketSuffix(pktnum, p) + tail)
  {
    PacketTemplateText(tail);
    PacketFormatSteps(tail, pktnum, p);
    AssociatePacket(PadInt(pktnum, 8, true), PadInt(p.streamIndex, 2, true), PadInt(p.pts, 10, true),
                    PadInt(|p.data|, 6, true), [KeyChar(p.flags)], tail);
  }

  lemma PacketTemplateText(tail: string)
    ensures PKT_FILE_SUFF + tail
         == "_" + (ZeroIntSpec(8, "l") + ("_" + (ZeroIntSpec(2, "")
              + ("_" + (ZeroIntSpec(10, "l") + ("_" + (ZeroIntSpec(6, "") + ("_" + ("%c" + (".bin" + tail))))))))))
  {
    ZeroIntSpecs();
  }

  lemma PacketFormatSteps(tail: string, pktnum: int, p: Packet)
    requires '%' !in tail
    ensures var key := KeyChar(p.flags);
      var r2 := "_" + (ZeroIntSpec(10, "l") + ("_" + (ZeroIntSpec(6, "") + ("_" + ("%c" + (".bin" + tail))))));
      Format("_" + (ZeroIntSpec(8, "l") + ("_" + (ZeroIntSpec(2, "") + r2))), PacketArgs(pktnum, p))
        == Some("_" + (PadInt(pktnum, 8, true) + ("_" + (PadInt(p.streamIndex, 2, true)
             + ("_" + (PadInt(p.pts, 10, true) + ("_" + (PadInt(|p.data|, 6, true)
             + ("_" + ([key] + (".bin" + tail)))))))))))
  {
    FourZeroIntsAndKey(8, "l", 2, "", 10, "l", 6, "", tail, pktnum, p.streamIndex, p.pts, |p.data|, KeyChar(p.flags));
  }

  lemma FourZeroIntsAndKey(w1: nat, l1: string, w2: nat, l2: string, w3: nat, l3: string, w4: nat, l4: string,
                           tail: string, v1: int, v2: int, v3: int, v4: int, key: char)
    requires w1 >= 1 && w2 >= 1 && w3 >= 1 && w4 >= 1
    requires IsLengthText(l1) && IsLengthText(l2) && IsLengthText(l3) && IsLengthText(l4)
    requires '%' !in tail
    ensures var r2 := "_" + (ZeroIntSpec(w3, l3) + ("_" + (ZeroIntSpec(w4, l4) + ("_" + ("%c" + (".bin" + tail))))));
      Format("_" + (ZeroIntSpec(w1, l1) + ("_" + (ZeroIntSpec(w2, l2) + r2))), [Int(v1), Int(v2), Int(v3), Int(v4), Chr(key)])
        == Some("_" + (PadInt(v1, w1, true) + ("_" + (PadInt(v2, w2, true)
             + ("_" + (PadInt(v3, w3, true) + ("_" + (PadInt(v4, w4, true)
             + ("_" + ([key] + (".bin" + tail)))))))))))
  {
    var r2 := "_" + (ZeroIntSpec(w3, l3) + ("_" + (ZeroIntSpec(w4, l4) + ("_" + ("%c" + (".bin" + tail))))));
    TwoZeroIntsAndKey(w3, l3, w4, l4, tail, v3, v4, key);
    TwoZeroInts(w1, l1, w2, l2, r2, v1, v2, [Int(v3), Int(v4), Chr(key)]);
    ArgsConcat(Int(v1), Int(v2), [Int(v3), Int(v4), Chr(key)]);
  }

  lemma ArgsConcat(a: Arg, b: Arg, rest: seq<Arg>)
    ensures [a, b] + rest == [a] + ([b] + rest)
    ensures |rest| == 1 ==> [a, b] + rest == [a, b, rest[0]]
    ensures |rest| == 3 ==> [a, b] + rest == [a, b, rest[0], rest[1], rest[2]]
  {
  }

  lemma TwoZeroIntsAndKey(w3: nat, l3: string, w4: nat, l4: string, tail: string, v3: int, v4: int, key: char)
    requires w3 >= 1 && w4 >= 1 && IsLengthText(l3) && IsLengthText(l4)
    requires '%' !in tail
    ensures Format("_" + (ZeroIntSpec(w3, l3) + ("_" + (ZeroIntSpec(w4, l4) + ("_" + ("%c" + (".bin" + tail)))))),
                   [Int(v3), Int(v4), Chr(key)])
         == Some("_" + (PadInt(v3, w3, true) + ("_" + (PadInt(v4, w4, true) + ("_" + ([key] + (".bin" + tail)))))))
  {
    var r3 := "_" + ("%c" + (".bin" + tail));
    KeyFormat(".bin" + tail, key);
    TwoZeroInts(w3, l3, w4, l4, r3, v3, v4, [Chr(key)]);
    ArgsConcat(Int(v3), Int(v4), [Chr(key)]);
  }

  lemma AssociatePacket(p8: string, p2: string, p10: string, p6: string, k: string, tail: string)
    ensures "_" + (p8 + ("_" + (p2 + ("_" + (p10 + ("_" + (p6 + ("_" + (k + (".bin" + tail))))))))))
         == "_" + p8 + "_" + p2 + "_" + p10 + "_" + p6 + "_" + k + ".bin" + tail
  {
  }

  lemma KeyFormat(r: string, key: char)
    requires '%' !in r
    ensures Format("_" + ("%c" + r), [Chr(key)]) == Some("_" + ([key] + r))
  {
    FormatLiteral(r, "", []);
    assert r + "" == r;
    FormatChar(r, key, []);
    assert [Chr(key)] + [] == [Chr(key)];
    FormatLiteral("_", "%c" + r, [Chr(key)]);
  }

  /** Two consecutive `_%0<w>d` conversions. */
  lemma TwoZeroInts(w1: nat, l1: string, w2: nat, l2: string, r: string, v1: int, v2: int, args: seq<Arg>)
    requires w1 >= 1 && w2 >= 1 && IsLengthText(l1) && IsLengthText(l2)
    requires Format(r, args).Some?
    ensures Format("_" + (ZeroIntSpec(w1, l1) + ("_" + (ZeroIntSpec(w2, l2) + r))), [Int(v1), Int(v2)] + args)
         == Some("_" + (PadInt(v1, w1, true) + ("_" + (PadInt(v2, w2, true) + Format(r, args).value))))
  {
    var r1 := "_" + (ZeroIntSpec(w2, l2) + r);
    FormatZeroInt(w2, l2, r, v2, args);
    FormatLiteral("_", ZeroIntSpec(w2, l2) + r, [Int(v2)] + args);
    FormatZeroInt(w1, l1, r1, v1, [Int(v2)] + args);
    assert [Int(v1)] + ([Int(v2)] + args) == [Int(v1), Int(v2)] + args;
    FormatLiteral("_", ZeroIntSpec(w1, l1) + r1, [Int(v1), Int(v2)] + args);
  }

  /**
   * An accepted base holds no '%', so the packet template expands to the
   * base verbatim followed by the expanded suffix, cut to the name buffer,
   * and the line printed for the packet is that suffix alone.
   */
  lemma PacketName(base: string, pktnum: int, p: Packet)
    requires Rejection(base).None?
    ensures Snprintf(FILENAME_BUF_SIZE, base + PKT_FILE_SUFF, PacketArgs(pktnum, p))
         == Some(FileName(base, PacketSuffix(pktnum, p)))
    ensures Format(PKT_FILE_SUFF + "\n", PacketArgs(pktnum, p)) == Some(PacketSuffix(pktnum, p) + "\n")
  {
    PacketFormat("", pktnum, p);
    assert PKT_FILE_SUFF + "" == PKT_FILE_SUFF && PacketSuffix(pktnum, p) + "" == PacketSuffix(pktnum, p);
    FormatLiteral(base, PKT_FILE_SUFF, PacketArgs(pktnum, p));
    PacketFormat("\n", pktnum, p);
  }

  /** The same for the extradata template and the line printed for an extradata file. */
  lemma ExtradataName(base: string, index: int, size: int)
    requires Rejection(base).None?
    ensures Snprintf(FILENAME_BUF_SIZE, base + EXTRADATA_FILE_SUFF, ExtradataArgs(index, size))
         == Some(FileName(base, ExtradataSuffix(index, size)))
    ensures Format(EXTRADATA_FILE_SUFF + "\n", ExtradataArgs(index, size)) == Some(ExtradataSuffix(index, size) + "\n")
  {
    ExtradataFormat("", index, size);
    assert EXTRADATA_FILE_SUFF + "" == EXTRADATA_FILE_SUFF && ExtradataSuffix(index, size) + "" == ExtradataSuffix(index, size);
    FormatLiteral(base, EXTRADATA_FILE_SUFF, ExtradataArgs(index, size));
    ExtradataFormat("\n", index, size);
  }

  /** The format of the line announcing the packet template. */
  const TEMPLATE_LINE_FMT := "FNTEMPLATE: '%s'\n"

  /** The line announcing the packet template prints the template as it is, conversions included. */
  lemma TemplateLine(template: string)
    ensures Format(TEMPLATE_LINE_FMT, [Str(template)]) == Some("FNTEMPLATE: '" + template + "'\n")
  {
    assert TEMPLATE_LINE_FMT == "FNTEMPLATE: '" + ("%s" + "'\n");
    StrBetween("FNTEMPLATE: '", "'\n", template);
  }

  lemma StrBetween(before: string, after: string, text: string)
    requires '%' !in before && '%' !in after
    ensures Format(before + ("%s" + after), [Str(text)]) == Some(before + text + after)
  {
    FormatLiteral(after, "", []);
    assert after + "" == after;
    FormatStr(after, text, []);
    assert [Str(text)] + [] == [Str(text)];
    FormatLiteral(before, "%s" + after, [Str(text)]);
    assert before + (text + after) == before + text + after;
  }

  /** The format of the refusal message for a base holding '%'. */
  const PERCENT_MESSAGE_FMT := "cannot use filenames containing '%%'\n"

  /** The doubled '%' of the refusal message prints as one. */
  lemma PercentMessageText()
    ensures Format(PERCENT_MESSAGE_FMT, []) == Some(PERCENT_MESSAGE)
  {
    assert PERCENT_MESSAGE_FMT == "cannot use filenames containing '" + ("%%" + "'\n");
    assert PERCENT_MESSAGE == "cannot use filenames containing '" + "%" + "'\n";
    PercentBetween("cannot use filenames containing '", "'\n");
  }

  lemma PercentBetween(before: string, after: string)
    requires '%' !in before && '%' !in after
    ensures Format(before + ("%%" + after), []) == Some(before + "%" + after)
  {
    var s := "%" + after;
    var fmt := "%%" + after;
    assert ParseSpec(s) == Some(Parsed(Spec(false, 0, NoLength, '%'), 1)) by {
      assert CountLeading(s, '0') == 0 && LeadingDigits(s) == 0 && LengthModifierSize(s) == 0;
      assert s[0..][..0] == [];
    }
    assert fmt[0] == '%' && fmt[1..] == s && fmt[2..] == after;
    assert Format(after, []) == Some(after) by {
      FormatLiteral(after, "", []);
      assert after + "" == after;
    }
    assert Format(fmt, []) == Some("%" + after);
    FormatLiteral(before, fmt, []);
    assert before + ("%" + after) == before + "%" + after;
  }

  /**
   * The length check bounds the template, not the expanded name: the base
   * of 4063 characters is accepted, yet the name of the very first packet
   * does not fit the name buffer: it keeps its first 4095 characters and
   * loses the end of its suffix.
   */
  lemma AcceptedNameMayBeCut()
    ensures var base := Repeat('a', 4063);
      var p := Packet(0, 0, 0, []);
      && Rejection(base).None?
      && |PacketSuffix(0, p)| == 36
      && FileName(base, PacketSuffix(0, p)) != base + PacketSuffix(0, p)
      && |FileName(base, PacketSuffix(0, p))| == FILENAME_BUF_SIZE - 1
  {
    var base := Repeat('a', 4063);
    RepeatChars('a', 4063);
    assert |PKT_FILE_SUFF| == 30;
  }
}

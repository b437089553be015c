/**
 * The part of the `printf` family (section 7.21.6.1 of ISO/IEC 9899:2011)
 * that the tool's format strings use: ordinary characters, `%%`, and the
 * conversions `d` (with the `0` flag, a field width and the length
 * modifiers `l` and `ll`), `c` and `s` without flags or width. Any other
 * conversion specification, and an argument missing or of the wrong kind,
 * is outside this model and yields `None`.
 */
module Printf {
  import opened Wrappers
  import opened Decimal

  datatype Arg = Int(i: int) | Chr(c: char) | Str(s: string)

  datatype LengthModifier = NoLength | Long | LongLong

  datatype Spec = Spec(zero: bool, width: nat, length: LengthModifier, conv: char)

  /** A conversion specification and the number of characters it occupies after its '%'. */
  datatype Parsed = Parsed(spec: Spec, used: nat)

  function CountLeading(s: string, c: char): (k: nat)
    ensures k <= |s|
  {
    if s != [] && s[0] == c then 1 + CountLeading(s[1..], c) else 0
  }

  /** The number of characters of a length modifier at the start of `s`: `ll`, `l` or none. */
  function LengthModifierSize(s: string): (m: nat)
    ensures m <= 2 && m <= |s|
  {
    if |s| >= 2 && s[0] == 'l' && s[1] == 'l' then 2 else if |s| >= 1 && s[0] == 'l' then 1 else 0
  }

  function LengthOf(m: nat): LengthModifier {
    if m == 2 then LongLong else if m == 1 then Long else NoLength
  }

  /** Reads the text after a '%': `0` flags, a decimal width, a length modifier, the conversion character. */
  function ParseSpec(s: string): (r: Option<Parsed>)
    ensures r.Some? ==> 1 <= r.value.used <= |s|
  {
    var z := CountLeading(s, '0');
    var d := LeadingDigits(s[z..]);
    var m := LengthModifierSize(s[z + d..]);
    var p := z + d + m;
    if p < |s| then Some(Parsed(Spec(z > 0, ValueOf(s[z..][..d]), LengthOf(m), s[p]), p + 1)) else None
  }

  /** The text one conversion produces from its argument. */
  function Convert(spec: Spec, arg: Arg): Option<string> {
    if spec.conv == 'd' && arg.Int? then Some(PadInt(arg.i, spec.width, spec.zero))
    else if spec.conv == 'c' && arg.Chr? && spec == Spec(false, 0, NoLength, 'c') then Some([arg.c])
    else if spec.conv == 's' && arg.Str? && spec == Spec(false, 0, NoLength, 's') then Some(arg.s)
    else None
  }

  function Prepend(s: string, r: Option<string>): Option<string> {
    if r.Some? then Some(s + r.value) else None
  }

  /** The text `printf(fmt, args...)` writes; arguments left over are ignored, as in C. */
  function Format(fmt: string, args: seq<Arg>): Option<string>
    decreases |fmt|
  {
    if fmt == [] then Some("")
    else if fmt[0] != '%' then Prepend([fmt[0]], Format(fmt[1..], args))
    else match ParseSpec(fmt[1..])
      case None => None
      case Some(parsed) =>
        var rest := fmt[1 + parsed.used..];
        if parsed.spec.conv == '%' then
          if parsed.spec == Spec(false, 0, NoLength, '%') then Prepend("%", Format(rest, args)) else None
        else if args == [] then None
        else match Convert(parsed.spec, args[0])
          case None => None
          case Some(text) => Prepend(text, Format(rest, args[1..]))
  }

  /** `snprintf` into a buffer of `size` bytes: the formatted text cut to `size - 1` characters. */
  function Snprintf(size: nat, fmt: string, args: seq<Arg>): (r: Option<string>)
    requires size >= 1
    ensures r.Some? <==> Format(fmt, args).Some?
    ensures r.Some? ==> r.value <= Format(fmt, args).value && |r.value| < size
    ensures r.Some? && |Format(fmt, args).value| < size ==> r.value == Format(fmt, args).value
    ensures r.Some? && |Format(fmt, args).value| >= size ==> |r.value| == size - 1
  {
    match Format(fmt, args)
    case None => None
    case Some(text) => Some(if |text| < size then text else text[..size - 1])
  }

  /** Text without '%' is copied verbatim and consumes no argument. */
  lemma {:induction false} FormatLiteral(lit: string, rest: string, args: seq<Arg>)
    requires '%' !in lit
    ensures Format(lit + rest, args) == Prepend(lit, Format(rest, args))
  {
    if lit != [] {
      var fmt := lit + rest;
      assert fmt[0] == lit[0] && fmt[1..] == lit[1..] + rest;
      FormatLiteral(lit[1..], rest, args);
      assert [lit[0]] + lit[1..] == lit;
      if Format(rest, args).Some? {
        assert [lit[0]] + (lit[1..] + Format(rest, args).value) == lit + Format(rest, args).value;
      }
    } else {
      assert lit + rest == rest;
      assert Format(rest, args).Some? ==> "" + Format(rest, args).value == Format(rest, args).value;
    }
  }

  /** The conversion text `%0<width><length>d`, as in `"%08" PRId64`. */
  function ZeroIntSpec(width: nat, length: string): string {
    "%0" + Digits(width) + length + "d"
  }

  predicate IsLengthText(length: string) {
    length == "" || length == "l" || length == "ll"
  }

  /** The text after the '%' of `%0<width><length>d` parses as that conversion, whatever follows it. */
  lemma ParseZeroInt(width: nat, length: string, rest: string)
    requires width >= 1 && IsLengthText(length)
    ensures ParseSpec("0" + Digits(width) + length + "d" + rest)
         == Some(Parsed(Spec(true, width, LengthOf(|length|), 'd'), 1 + |Digits(width)| + |length| + 1))
  {
    var w := Digits(width);
    var t := length + "d" + rest;
    var s := "0" + Digits(width) + length + "d" + rest;
    ZeroIntText(w, length, rest);
    CountLeadingOne(w + t);
    LeadingDigitsBeforeText(w, t);
    LengthModifierBeforeD(length, rest);
    DigitsRoundTrip(width);
    ParseSpecOf(s, 1, |w|, |length|);
  }

  /** How `ParseSpec` reads a text whose flags, width and length modifier are known. */
  lemma ParseSpecOf(s: string, z: nat, d: nat, m: nat)
    requires z <= |s| && CountLeading(s, '0') == z
    requires z + d <= |s| && LeadingDigits(s[z..]) == d
    requires LengthModifierSize(s[z + d..]) == m && z + d + m < |s|
    ensures ParseSpec(s) == Some(Parsed(Spec(z > 0, ValueOf(s[z..][..d]), LengthOf(m), s[z + d + m]), z + d + m + 1))
  {
  }

  /** The pieces of `0<digits><length>d<rest>`, as `ParseSpec` reads them. */
  lemma ZeroIntText(w: string, length: string, rest: string)
    ensures var s := "0" + w + length + "d" + rest;
      && s == "0" + (w + (length + "d" + rest))
      && s[1..] == w + (length + "d" + rest)
      && s[1..][..|w|] == w
      && s[1 + |w|..] == length + "d" + rest
      && s[1 + |w| + |length|] == 'd'
  {
    var t := length + "d" + rest;
    var s := "0" + w + length + "d" + rest;
    assert s == "0" + (w + t);
    assert s[1..] == w + t;
    assert (w + t)[..|w|] == w;
    assert s[1 + |w|..] == t;
    assert t[|length|] == 'd';
  }

  lemma CountLeadingOne(u: string)
    requires u != [] && u[0] != '0'
    ensures CountLeading("0" + u, '0') == 1
  {
    assert ("0" + u)[1..] == u;
  }

  lemma LeadingDigitsBeforeText(w: string, t: string)
    requires AllDigits(w) && t != [] && !IsDigit(t[0])
    ensures LeadingDigits(w + t) == |w|
  {
    assert (w + t)[|w|] == t[0];
    assert forall i :: 0 <= i < |w| ==> (w + t)[i] == w[i];
  }

  lemma LengthModifierBeforeD(length: string, rest: string)
    requires IsLengthText(length)
    ensures LengthModifierSize(length + "d" + rest) == |length|
  {
    var t := length + "d" + rest;
    assert t[|length|] == 'd';
    if length == "ll" { assert t[0] == 'l' && t[1] == 'l'; }
    if length == "l" { assert t[0] == 'l'; }
  }

  /** A `%0<width>d` conversion writes its integer argument zero-padded to `width`. */
  lemma FormatZeroInt(width: nat, length: string, rest: string, v: int, args: seq<Arg>)
    requires width >= 1 && IsLengthText(length)
    ensures Format(ZeroIntSpec(width, length) + rest, [Int(v)] + args)
         == Prepend(PadInt(v, width, true), Format(rest, args))
  {
    var fmt := ZeroIntSpec(width, length) + rest;
    var used := 1 + |Digits(width)| + |length| + 1;
    ZeroIntSpecText(width, length, rest);
    ParseZeroInt(width, length, rest);
    FormatConversion(fmt, Parsed(Spec(true, width, LengthOf(|length|), 'd'), used), [Int(v)] + args,
                     PadInt(v, width, true));
    assert ([Int(v)] + args)[1..] == args;
  }

  lemma ZeroIntSpecText(width: nat, length: string, rest: string)
    ensures var fmt := ZeroIntSpec(width, length) + rest;
      && fmt != [] && fmt[0] == '%'
      && fmt[1..] == "0" + Digits(width) + length + "d" + rest
      && fmt[1 + (1 + |Digits(width)| + |length| + 1)..] == rest
  {
    var fmt := ZeroIntSpec(width, length) + rest;
    assert fmt == "%" + ("0" + Digits(width) + length + "d" + rest);
  }

  /** A conversion other than `%%` writes the text of its argument, then the rest of the format. */
  lemma FormatConversion(fmt: string, parsed: Parsed, args: seq<Arg>, text: string)
    requires fmt != [] && fmt[0] == '%' && ParseSpec(fmt[1..]) == Some(parsed) && parsed.spec.conv != '%'
    requires args != [] && Convert(parsed.spec, args[0]) == Some(text)
    ensures Format(fmt, args) == Prepend(text, Format(fmt[1 + parsed.used..], args[1..]))
  {
  }

  /** A bare `%c` writes its character argument. */
  lemma FormatChar(rest: string, c: char, args: seq<Arg>)
    ensures Format("%c" + rest, [Chr(c)] + args) == Prepend([c], Format(rest, args))
  {
    var fmt := "%c" + rest;
    assert fmt[1..] == "c" + rest;
    assert ParseSpec(fmt[1..]) == Some(Parsed(Spec(false, 0, NoLength, 'c'), 1)) by {
      assert LeadingDigits(fmt[1..]) == 0;
      assert fmt[1..][0..0] == [];
    }
    assert fmt[2..] == rest;
  }

  /** A bare `%s` writes its string argument, whatever characters it holds. */
  lemma FormatStr(rest: string, text: string, args: seq<Arg>)
    ensures Format("%s" + rest, [Str(text)] + args) == Prepend(text, Format(rest, args))
  {
    var fmt := "%s" + rest;
    assert fmt[1..] == "s" + rest;
    assert ParseSpec(fmt[1..]) == Some(Parsed(Spec(false, 0, NoLength, 's'), 1)) by {
      assert LeadingDigits(fmt[1..]) == 0;
      assert fmt[1..][0..0] == [];
    }
    assert fmt[2..] == rest;
  }
}

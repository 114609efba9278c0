/**
 * The command-line parsers of the evaluation script (eval_baseline_mae.py):
 * `--name=value` options looked up in `sys.argv[1:]`, the first match
 * deciding.  `argv` is a parameter, and the script's print-and-exit on a bad
 * integer is an error result carrying the message it prints.
 */
module EvalArgs {
  import opened Wrappers

  // ---------------------------------------------------------------------------
  // Text helpers: startswith, strip, int()
  // ---------------------------------------------------------------------------

  predicate StartsWith(s: string, prefix: string)
  {
    |prefix| <= |s| && s[..|prefix|] == prefix
  }

  /** Python's `str.isspace` for one character: the Unicode whitespace `strip()` removes. */
  predicate IsSpace(c: char)
  {
    var n := c as int;
    (9 <= n <= 13) || (28 <= n <= 32) || n == 0x85 || n == 0xA0 || n == 0x1680
    || (0x2000 <= n <= 0x200A) || n == 0x2028 || n == 0x2029 || n == 0x202F || n == 0x205F || n == 0x3000
  }

  predicate AllSpace(s: string)
  {
    forall i :: 0 <= i < |s| ==> IsSpace(s[i])
  }

  /** Neither end of `s` is whitespace: what `strip()` leaves. */
  predicate Trimmed(s: string)
  {
    s == [] || (!IsSpace(s[0]) && !IsSpace(s[|s| - 1]))
  }

  function TrimStart(s: string): (r: string)
    ensures |r| <= |s| && r == s[|s| - |r|..]
    ensures AllSpace(s[..|s| - |r|])
    ensures r != [] ==> !IsSpace(r[0])
    decreases |s|
  {
    if s != [] && IsSpace(s[0]) then
      var r := TrimStart(s[1..]);
      assert s[..|s| - |r|] == [s[0]] + s[1..][..|s[1..]| - |r|];
      r
    else s
  }

  function TrimEnd(s: string): (r: string)
    ensures |r| <= |s| && r == s[..|r|]
    ensures AllSpace(s[|r|..])
    ensures r != [] ==> !IsSpace(r[|r| - 1])
    decreases |s|
  {
    if s != [] && IsSpace(s[|s| - 1]) then
      var r := TrimEnd(s[..|s| - 1]);
      assert s[|r|..] == s[..|s| - 1][|r|..] + [s[|s| - 1]];
      r
    else s
  }

  /**
   * `str.strip()`: the middle of `s` between its leading and its trailing
   * whitespace.
   */
  function Strip(s: string): (r: string)
    ensures Trimmed(r) && |r| <= |s|
  {
    TrimEnd(TrimStart(s))
  }

  /** What strip returns is a slice of its input with only whitespace on either side. */
  lemma StripIsMiddle(s: string)
    ensures var r := Strip(s);
      exists i :: 0 <= i <= |s| - |r| && r == s[i..i + |r|] && AllSpace(s[..i]) && AllSpace(s[i + |r|..])
  {
    MiddleOfSuffix(s, TrimStart(s), Strip(s));
  }

  /** A prefix `r` of a suffix `t` of `s`, each cut off whitespace only, is a middle slice of `s` with whitespace around it. */
  lemma MiddleOfSuffix(s: string, t: string, r: string)
    requires |t| <= |s| && t == s[|s| - |t|..] && AllSpace(s[..|s| - |t|])
    requires |r| <= |t| && r == t[..|r|] && AllSpace(t[|r|..])
    ensures exists i :: 0 <= i <= |s| - |r| && r == s[i..i + |r|] && AllSpace(s[..i]) && AllSpace(s[i + |r|..])
  {
    var i := |s| - |t|;
    assert s[i + |r|..] == t[|r|..];
    assert r == s[i..i + |r|];
  }

  lemma {:induction false} TrimStartPadded(p: string, s: string)
    requires AllSpace(p)
    ensures TrimStart(p + s) == TrimStart(s)
    decreases |p|
  {
    if p != [] {
      assert (p + s)[1..] == p[1..] + s;
      TrimStartPadded(p[1..], s);
    } else {
      assert p + s == s;
    }
  }

  lemma {:induction false} TrimEndPadded(s: string, q: string)
    requires AllSpace(q)
    ensures TrimEnd(s + q) == TrimEnd(s)
    decreases |q|
  {
    if q != [] {
      var front := q[..|q| - 1];
      assert (s + q)[..|s + q| - 1] == s + front;
      TrimEndPadded(s, front);
    } else {
      assert s + q == s;
    }
  }

  /** Whitespace around a trimmed text is what strip removes, and all it removes. */
  lemma StripPadded(p: string, s: string, q: string)
    requires AllSpace(p) && AllSpace(q) && Trimmed(s)
    ensures Strip(p + s + q) == s
  {
    assert p + s + q == p + (s + q);
    TrimStartPadded(p, s + q);
    if s == [] {
      assert s + q == q;
    } else {
      assert (s + q)[0] == s[0];
      TrimEndPadded(s, q);
    }
  }

  /** Stripping twice is stripping once. */
  lemma StripIdempotent(s: string)
    ensures Strip(Strip(s)) == Strip(s)
  {
    StripPadded([], Strip(s), []);
    assert [] + Strip(s) + [] == Strip(s);
  }

  predicate IsDigit(c: char)
  {
    '0' <= c <= '9'
  }

  /**
   * The digit part `int()` accepts: decimal digits, with single underscores
   * allowed between two digits.
   */
  predicate DigitText(d: string)
  {
    && |d| > 0 && IsDigit(d[0]) && IsDigit(d[|d| - 1])
    && (forall i :: 0 <= i < |d| ==> IsDigit(d[i]) || d[i] == '_')
    && (forall i :: 0 <= i < |d| - 1 ==> !(d[i] == '_' && d[i + 1] == '_'))
  }

  /** The value of a digit text, underscores ignored. */
  function DigitsValue(d: string): nat
    decreases |d|
  {
    if d == [] then 0
    else
      var c := d[|d| - 1];
      if IsDigit(c) then DigitsValue(d[..|d| - 1]) * 10 + (c as int - '0' as int)
      else DigitsValue(d[..|d| - 1])
  }

  /**
   * `int(v)` for a base-10 string that has already been stripped: an
   * optional sign, then the digit text; None where Python raises ValueError,
   * as on a leading or doubled underscore.
   */
  function ParseInt(v: string): (r: Option<int>)
    ensures r.Some? ==> v != [] && forall i :: 0 <= i < |v| ==>
      IsDigit(v[i]) || v[i] == '_' || (i == 0 && (v[i] == '-' || v[i] == '+'))
    ensures r.Some? ==> IsDigit(v[|v| - 1])
    ensures r.Some? ==> exists d :: DigitText(d) && (((v == d || v == "+" + d) && r.value == DigitsValue(d))
                                                    || (v == "-" + d && r.value == -(DigitsValue(d) as int)))
  {
    if v == [] then None
    else
      var neg := v[0] == '-';
      var signed := v[0] == '-' || v[0] == '+';
      var d := if signed then v[1..] else v;
      if !DigitText(d) then None
      else
        assert forall i :: 0 <= i < |v| && (!signed || i > 0) ==> v[i] == d[if signed then i - 1 else i];
        var m: int := DigitsValue(d);
        Some(if neg then -m else m)
  }

  /**
   * A digit text parses to its value, with or without a leading `+`, and to
   * the negated value after a leading `-`.
   */
  lemma ParseIntDigits(d: string)
    requires DigitText(d)
    ensures ParseInt(d) == Some(DigitsValue(d))
    ensures ParseInt("+" + d) == Some(DigitsValue(d))
    ensures ParseInt("-" + d) == Some(-(DigitsValue(d) as int))
  {
    assert ("+" + d)[1..] == d;
    assert ("-" + d)[1..] == d;
  }

  /** The decimal text of a natural number, most significant digit first and no leading zero. */
  function NatToDigits(n: nat): (d: string)
    ensures DigitText(d) && '_' !in d
    ensures DigitsValue(d) == n
    decreases n
  {
    var c := ('0' as int + n % 10) as char;
    if n < 10 then [c]
    else
      var front := NatToDigits(n / 10);
      var d := front + [c];
      assert d[..|d| - 1] == front;
      assert forall i :: 0 <= i < |d| - 1 ==> d[i] == front[i];
      d
  }

  /** `str(n)` for an integer. */
  function IntToString(n: int): (s: string)
    ensures Trimmed(s)
  {
    if n < 0 then "-" + NatToDigits(-n) else NatToDigits(n)
  }

  /** `int(str(n)) == n`: the text of every integer parses back to it. */
  lemma ParseIntToString(n: int)
    ensures ParseInt(IntToString(n)) == Some(n)
  {
    var s := IntToString(n);
    if n < 0 {
      assert s[0] == '-' && s[1..] == NatToDigits(-n);
    } else {
      var d := NatToDigits(n);
      assert s[0] == d[0];
    }
  }

  // ---------------------------------------------------------------------------
  // The parsers
  // ---------------------------------------------------------------------------

  function OptionPrefix(name: string): string
  {
    "--" + name + "="
  }

  function FirstMatchFrom(argv: seq<string>, prefix: string, i: nat): (r: Option<nat>)
    requires 1 <= i
    ensures r.Some? ==> i <= r.value < |argv| && StartsWith(argv[r.value], prefix)
                        && forall j :: i <= j < r.value ==> !StartsWith(argv[j], prefix)
    ensures r.None? ==> forall j :: i <= j < |argv| ==> !StartsWith(argv[j], prefix)
    decreases |argv| - i
  {
    if i >= |argv| then None
    else if StartsWith(argv[i], prefix) then Some(i)
    else FirstMatchFrom(argv, prefix, i + 1)
  }

  /**
   * The loop over `sys.argv[1:]`: the index of the first argument after the
   * program name that starts with `prefix`.
   */
  function FirstMatch(argv: seq<string>, prefix: string): (r: Option<nat>)
    ensures r.Some? ==> 1 <= r.value < |argv| && StartsWith(argv[r.value], prefix)
                        && forall j :: 1 <= j < r.value ==> !StartsWith(argv[j], prefix)
    ensures r.None? ==> forall j :: 1 <= j < |argv| ==> !StartsWith(argv[j], prefix)
  {
    FirstMatchFrom(argv, prefix, 1)
  }

  /**
   * What both parsers read: the stripped text after `--name=` in the first
   * matching argument, None when no argument matches.
   */
  function ArgValue(argv: seq<string>, name: string): (r: Option<string>)
    ensures r.None? <==> forall j :: 1 <= j < |argv| ==> !StartsWith(argv[j], OptionPrefix(name))
    ensures r.Some? ==> Trimmed(r.value)
  {
    var prefix := OptionPrefix(name);
    match FirstMatch(argv, prefix)
    case None => None
    case Some(i) => Some(Strip(argv[i][|prefix|..]))
  }

  /** The value read is the stripped remainder of the first argument that starts with `--name=`. */
  lemma ArgValueIsFirstMatch(argv: seq<string>, name: string)
    requires ArgValue(argv, name).Some?
    ensures exists i :: (1 <= i < |argv| && StartsWith(argv[i], OptionPrefix(name))
      && (forall j :: 1 <= j < i ==> !StartsWith(argv[j], OptionPrefix(name)))
      && ArgValue(argv, name).value == Strip(argv[i][|OptionPrefix(name)|..]))
  {
    var i := FirstMatch(argv, OptionPrefix(name)).value;
    assert 1 <= i < |argv| && StartsWith(argv[i], OptionPrefix(name));
  }

  function InvalidIntegerMessage(name: string, v: string): string
  {
    "[ERROR] Invalid integer for " + name + ": " + v
  }

  /**
   * parse_int_arg: the default when the option is absent or its value is
   * blank, the integer it spells, or the error the script prints before
   * exiting with status 1.
   */
  function ParseIntArg(argv: seq<string>, name: string, default: Option<int>): (r: Result<Option<int>, string>)
    ensures ArgValue(argv, name).None? || ArgValue(argv, name) == Some("") ==> r == Ok(default)
    ensures r.Err? <==> ArgValue(argv, name).Some? && ArgValue(argv, name).value != "" && ParseInt(ArgValue(argv, name).value).None?
    ensures r.Err? ==> r.error == InvalidIntegerMessage(name, ArgValue(argv, name).value)
    ensures ArgValue(argv, name).Some? && ArgValue(argv, name).value != "" && ParseInt(ArgValue(argv, name).value).Some?
            ==> r == Ok(ParseInt(ArgValue(argv, name).value))
  {
    match ArgValue(argv, name)
    case None => Ok(default)
    case Some(v) =>
      if v == "" then Ok(default)
      else
        match ParseInt(v)
        case None => Err(InvalidIntegerMessage(name, v))
        case Some(n) => Ok(Some(n))
  }

  /** parse_str_arg: the stripped value of the first match, or the default when it is blank or absent. */
  function ParseStrArg(argv: seq<string>, name: string, default: string): (r: string)
    ensures ArgValue(argv, name).None? || ArgValue(argv, name) == Some("") ==> r == default
    ensures ArgValue(argv, name).Some? && ArgValue(argv, name).value != "" ==> r == ArgValue(argv, name).value
  {
    match ArgValue(argv, name)
    case None => default
    case Some(v) => if v != "" then v else default
  }

  // ---------------------------------------------------------------------------
  // What the parsers promise
  // ---------------------------------------------------------------------------

  /** `argv[0]`, the program name, is never read as an option. */
  lemma ProgramNameIgnored(prog: string, prog': string, rest: seq<string>, name: string)
    ensures ArgValue([prog] + rest, name) == ArgValue([prog'] + rest, name)
  {
    var a := [prog] + rest;
    var b := [prog'] + rest;
    assert forall j :: 1 <= j < |a| ==> a[j] == b[j];
    var prefix := OptionPrefix(name);
    FirstMatchSame(a, b, prefix, 1);
  }

  lemma {:induction false} FirstMatchSame(a: seq<string>, b: seq<string>, prefix: string, i: nat)
    requires 1 <= i && |a| == |b| && forall j :: 1 <= j < |a| ==> a[j] == b[j]
    ensures FirstMatchFrom(a, prefix, i) == FirstMatchFrom(b, prefix, i)
    decreases |a| - i
  {
    if i < |a| && !StartsWith(a[i], prefix) {
      FirstMatchSame(a, b, prefix, i + 1);
    }
  }

  /** Arguments after the first `--name=` one change nothing: the first match wins. */
  lemma FirstMatchWins(argv: seq<string>, more: seq<string>, name: string)
    requires ArgValue(argv, name).Some?
    ensures ArgValue(argv + more, name) == ArgValue(argv, name)
  {
    var prefix := OptionPrefix(name);
    var i := FirstMatch(argv, prefix).value;
    var both := argv + more;
    assert forall j :: 0 <= j < |argv| ==> both[j] == argv[j];
    FirstMatchPrefix(argv, more, prefix, 1);
  }

  lemma {:induction false} FirstMatchPrefix(argv: seq<string>, more: seq<string>, prefix: string, i: nat)
    requires 1 <= i && FirstMatchFrom(argv, prefix, i).Some?
    ensures FirstMatchFrom(argv + more, prefix, i) == FirstMatchFrom(argv, prefix, i)
    decreases |argv| - i
  {
    assert (argv + more)[i] == argv[i];
    if !StartsWith(argv[i], prefix) {
      FirstMatchPrefix(argv, more, prefix, i + 1);
    }
  }

  /** The option given once, as the last argument, is found. */
  lemma ArgValueLast(prog: string, others: seq<string>, name: string, rest: string)
    requires forall j :: 0 <= j < |others| ==> !StartsWith(others[j], OptionPrefix(name))
    ensures ArgValue([prog] + others + [OptionPrefix(name) + rest], name) == Some(Strip(rest))
  {
    var prefix := OptionPrefix(name);
    var arg := prefix + rest;
    var argv := [prog] + others + [arg];
    assert forall j :: 1 <= j < |argv| - 1 ==> argv[j] == others[j - 1];
    assert argv[|argv| - 1] == arg;
    assert StartsWith(arg, prefix) && arg[|prefix|..] == rest;
  }

  /**
   * `--name=` followed by the text of an integer, whitespace around it
   * allowed, parses to that integer when no earlier argument names the option.
   */
  lemma ParseIntArgRoundTrip(prog: string, others: seq<string>, name: string, n: int, p: string, q: string, default: Option<int>)
    requires forall j :: 0 <= j < |others| ==> !StartsWith(others[j], OptionPrefix(name))
    requires AllSpace(p) && AllSpace(q)
    ensures ParseIntArg([prog] + others + [OptionPrefix(name) + (p + IntToString(n) + q)], name, default) == Ok(Some(n))
  {
    ArgValueLast(prog, others, name, p + IntToString(n) + q);
    StripPadded(p, IntToString(n), q);
    ParseIntToString(n);
  }

  /**
   * A non-blank value that is not an integer is the error the script prints,
   * naming the option and the stripped value.
   */
  lemma ParseIntArgRejects(prog: string, others: seq<string>, name: string, v: string, p: string, q: string, default: Option<int>)
    requires forall j :: 0 <= j < |others| ==> !StartsWith(others[j], OptionPrefix(name))
    requires AllSpace(p) && AllSpace(q) && Trimmed(v) && v != "" && ParseInt(v).None?
    ensures ParseIntArg([prog] + others + [OptionPrefix(name) + (p + v + q)], name, default)
            == Err(InvalidIntegerMessage(name, v))
  {
    ArgValueLast(prog, others, name, p + v + q);
    StripPadded(p, v, q);
  }

  /** `--model=` with a non-blank value, whitespace around it allowed, yields that value. */
  lemma ParseStrArgRoundTrip(prog: string, others: seq<string>, name: string, v: string, p: string, q: string, default: string)
    requires forall j :: 0 <= j < |others| ==> !StartsWith(others[j], OptionPrefix(name))
    requires AllSpace(p) && AllSpace(q) && Trimmed(v) && v != ""
    ensures ParseStrArg([prog] + others + [OptionPrefix(name) + (p + v + q)], name, default) == v
  {
    ArgValueLast(prog, others, name, p + v + q);
    StripPadded(p, v, q);
  }

  /** The result of parse_str_arg is the default or a non-blank stripped text. */
  lemma ParseStrArgTrimmed(argv: seq<string>, name: string, default: string)
    ensures var r := ParseStrArg(argv, name, default);
      r == default || (r != "" && Trimmed(r))
  {
  }
}

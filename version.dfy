/**
 * The server version of a PostgreSQL connection: how the text reported by
 * `SHOW server_version` becomes a tuple of integers, and how Python compares
 * such tuples.
 */
module Version {
  import opened Wrappers

  /** Why `int()` refused a component of the version text (Python's ValueError). */
  datatype ParseError = InvalidLiteral(component: string)

  predicate IsDigit(c: char) { '0' <= c <= '9' }

  predicate AllDigits(s: string) { forall i :: 0 <= i < |s| ==> IsDigit(s[i]) }

  function DigitValue(c: char): (d: nat)
    requires IsDigit(c)
    ensures d < 10
  {
    c as int - '0' as int
  }

  function DigitChar(d: nat): (c: char)
    requires d < 10
    ensures IsDigit(c) && DigitValue(c) == d
  {
    ('0' as int + d) as char
  }

  /** The value of a string of decimal digits, most significant digit first. */
  function DigitsValue(s: string): nat
    requires AllDigits(s)
  {
    if s == [] then 0 else DigitsValue(s[..|s| - 1]) * 10 + DigitValue(s[|s| - 1])
  }

  /** The decimal spelling of a natural number, without leading zeros. */
  function NatToString(n: nat): (s: string)
    ensures |s| > 0 && AllDigits(s)
    ensures s[0] != '0' || n == 0
  {
    if n < 10 then [DigitChar(n)] else NatToString(n / 10) + [DigitChar(n % 10)]
  }

  /** Reading back the decimal spelling of a number gives that number. */
  lemma {:induction false} DigitsValueOfNatToString(n: nat)
    ensures DigitsValue(NatToString(n)) == n
  {
    var s := NatToString(n);
    if n >= 10 {
      DigitsValueOfNatToString(n / 10);
      assert s[..|s| - 1] == NatToString(n / 10);
    }
  }

  /**
   * Python's `int(text)` on the text of one version component: an optional
   * sign followed by at least one decimal digit. Anything else raises.
   */
  function ParseInt(s: string): (r: Option<int>)
    ensures r.Some? <==> (s != [] && AllDigits(s)) || (|s| >= 2 && s[0] in "+-" && AllDigits(s[1..]))
    ensures r.Some? && AllDigits(s) ==> r.value == DigitsValue(s)
  {
    if |s| > 0 && (s[0] == '+' || s[0] == '-') then
      var digits := s[1..];
      if digits != [] && AllDigits(digits) then
        var magnitude: int := DigitsValue(digits);
        Some(if s[0] == '-' then -magnitude else magnitude)
      else
        None
    else if s != [] && AllDigits(s) then
      Some(DigitsValue(s))
    else
      None
  }

  /** `int(str(n))` gives `n` back for every natural number. */
  lemma ParseIntOfNatToString(n: nat)
    ensures ParseInt(NatToString(n)) == Some(n)
  {
    DigitsValueOfNatToString(n);
  }

  /** `s.split(sep, 1)[0]`: the text before the first `sep`, or all of `s`. */
  function BeforeFirst(s: string, sep: char): (r: string)
    ensures r <= s
    ensures sep !in r
    ensures |r| < |s| ==> s[|r|] == sep
  {
    if s == [] || s[0] == sep then [] else [s[0]] + BeforeFirst(s[1..], sep)
  }

  /** Without `sep` in it, `s.split(sep, 1)[0]` is all of `s`. */
  lemma {:induction false} BeforeFirstWithoutSep(s: string, sep: char)
    requires sep !in s
    ensures BeforeFirst(s, sep) == s
  {
    if s != [] {
      assert s[0] != sep && sep !in s[1..];
      BeforeFirstWithoutSep(s[1..], sep);
      assert s == [s[0]] + s[1..];
    }
  }

  /** What follows the first `sep` in `s` (empty when there is none). */
  function AfterFirst(s: string, sep: char): (r: string)
    ensures sep in s ==> s == BeforeFirst(s, sep) + [sep] + r
  {
    var head := BeforeFirst(s, sep);
    if |head| < |s| then s[|head| + 1..] else []
  }

  /** The first space-delimited token of the version text. */
  function VersionToken(serverVersion: string): string
  {
    BeforeFirst(serverVersion, ' ')
  }

  /**
   * `serverVersion.split(" ", 1)[0].split(".", 2)[:2]`: the first one or two
   * dot-separated components of the first token.
   */
  function VersionParts(serverVersion: string): (parts: seq<string>)
    ensures 1 <= |parts| <= 2
    ensures |parts| == 2 <==> '.' in VersionToken(serverVersion)
    ensures forall i :: 0 <= i < |parts| ==> ' ' !in parts[i] && '.' !in parts[i]
    ensures parts[0] <= VersionToken(serverVersion)
    ensures |parts| == 1 ==> parts[0] == VersionToken(serverVersion)
    ensures |parts| == 2 ==> parts[0] + "." + parts[1] <= VersionToken(serverVersion)
    ensures |parts| == 2 ==>
      var n := |parts[0]| + 1 + |parts[1]|;
      n == |VersionToken(serverVersion)| || VersionToken(serverVersion)[n] == '.'
  {
    var token := VersionToken(serverVersion);
    if '.' in token then
      var head, second := BeforeFirst(token, '.'), BeforeFirst(AfterFirst(token, '.'), '.');
      DotComponents(token);
      assert ' ' !in token && '.' !in head && '.' !in second;
      [head, second]
    else
      [token]
  }

  /**
   * The text before the first dot, that dot and the text up to the next dot
   * start `token`, and the next dot, if any, follows them.
   */
  lemma DotComponents(token: string)
    requires '.' in token
    ensures var head := BeforeFirst(token, '.');
      var second := BeforeFirst(AfterFirst(token, '.'), '.');
      && head + "." + second <= token
      && (|head| + 1 + |second| == |token| || token[|head| + 1 + |second|] == '.')
      && (' ' !in token ==> ' ' !in head && ' ' !in second)
  {
    var head := BeforeFirst(token, '.');
    var after := AfterFirst(token, '.');
    var second := BeforeFirst(after, '.');
    assert token == head + "." + after;
    assert after[..|second|] == second;
    assert token[..|head| + 1 + |second|] == head + "." + after[..|second|];
    if |second| < |after| {
      assert token[|head| + 1 + |second|] == after[|second|];
    }
    if ' ' !in token {
      assert forall i :: 0 <= i < |head| ==> head[i] == token[i];
      assert forall i :: 0 <= i < |second| ==> second[i] == token[|head| + 1 + i];
    }
  }

  /** `tuple(map(int, parts))`: the first part `int()` refuses is the error. */
  function ParseParts(parts: seq<string>): (r: Result<seq<int>, ParseError>)
    ensures r.Ok? <==> forall i :: 0 <= i < |parts| ==> ParseInt(parts[i]).Some?
    ensures r.Ok? ==> |r.value| == |parts|
    ensures r.Ok? ==> forall i :: 0 <= i < |parts| ==> r.value[i] == ParseInt(parts[i]).value
    ensures r.Err? ==>
      exists i :: (0 <= i < |parts| && ParseInt(parts[i]).None? && r.error == InvalidLiteral(parts[i]) &&
                   forall j :: 0 <= j < i ==> ParseInt(parts[j]).Some?)
  {
    if parts == [] then Ok([])
    else match ParseInt(parts[0])
      case None => Err(InvalidLiteral(parts[0]))
      case Some(n) =>
        match ParseParts(parts[1..])
        case Err(e) => Err(e)
        case Ok(rest) => Ok([n] + rest)
  }

  /**
   * The version tuple of a `SHOW server_version` reply
   * (`PostgresActivityManager.__get_version`).
   */
  function ParseVersion(serverVersion: string): (r: Result<seq<int>, ParseError>)
    ensures r.Ok? ==> 1 <= |r.value| <= 2
    ensures r.Ok? ==> (|r.value| == 2 <==> '.' in VersionToken(serverVersion))
    ensures r.Ok? <==> forall p :: p in VersionParts(serverVersion) ==> ParseInt(p).Some?
  {
    ParseParts(VersionParts(serverVersion))
  }

  /**
   * A release spelled `major.minor`, then nothing, a further `.component`
   * or a space and anything, parses to `(major, minor)`.
   */
  lemma MajorMinorRoundTrip(major: nat, minor: nat, tail: string)
    requires tail == [] || tail[0] == '.' || tail[0] == ' '
    ensures ParseVersion(NatToString(major) + "." + NatToString(minor) + tail) == Ok([major, minor])
  {
    var a, b := NatToString(major), NatToString(minor);
    ConcatRight(a, ".", b, tail);
    TwoComponentParts(a, b, tail);
    ParseIntOfNatToString(major);
    ParseIntOfNatToString(minor);
    assert [a, b][1..] == [b] && [b][1..] == [];
    assert ParseParts([]) == Ok([]);
    assert [minor] + [] == [minor];
    assert ParseParts([b]) == Ok([minor]);
    assert [major] + [minor] == [major, minor];
    assert ParseParts([a, b]) == Ok([major, minor]);
  }

  lemma ConcatRight(a: string, b: string, c: string, d: string)
    ensures a + b + c + d == a + (b + (c + d))
  {
  }

  /** The parts of `a.b` followed by a tail that starts with a dot or a space, or is empty. */
  lemma TwoComponentParts(a: string, b: string, tail: string)
    requires AllDigits(a) && AllDigits(b)
    requires tail == [] || tail[0] == '.' || tail[0] == ' '
    ensures VersionParts(a + ("." + (b + tail))) == [a, b]
  {
    var t := BeforeFirst(tail, ' ');
    assert t == [] || t[0] == '.' by {
      if tail != [] && tail[0] == '.' { assert t == [tail[0]] + BeforeFirst(tail[1..], ' '); }
    }
    TokenOfTwoComponents(a, b, tail);
    SplitTokenAtDot(a, b, t);
  }

  /** The first token of `a.b` followed by `tail` keeps what the tail has before a space. */
  lemma TokenOfTwoComponents(a: string, b: string, tail: string)
    requires AllDigits(a) && AllDigits(b)
    ensures VersionToken(a + ("." + (b + tail))) == a + ("." + (b + BeforeFirst(tail, ' ')))
  {
    var rest := "." + (b + tail);
    BeforeFirstOfDigits(a, rest, ' ');
    assert rest[0] == '.' && rest[1..] == b + tail;
    BeforeFirstOfDigits(b, tail, ' ');
    assert BeforeFirst(rest, ' ') == "." + (b + BeforeFirst(tail, ' '));
  }

  /** Splitting `a.b` followed by nothing or a dot yields `a`, then `b`. */
  lemma SplitTokenAtDot(a: string, b: string, t: string)
    requires AllDigits(a) && AllDigits(b)
    requires t == [] || t[0] == '.'
    ensures var token := a + ("." + (b + t));
      && '.' in token
      && BeforeFirst(token, '.') == a
      && BeforeFirst(AfterFirst(token, '.'), '.') == b
  {
    var rest := "." + (b + t);
    var token := a + rest;
    assert token[|a|] == rest[0] == '.';
    BeforeFirstOfDigits(a, rest, '.');
    assert BeforeFirst(rest, '.') == [];
    assert token[|a| + 1..] == rest[1..] == b + t;
    assert AfterFirst(token, '.') == b + t;
    BeforeFirstOfDigits(b, t, '.');
    assert BeforeFirst(t, '.') == [];
  }

  /** A version spelled with one number only (`"10"`) parses to `(major,)`. */
  lemma MajorOnlyRoundTrip(major: nat, tail: string)
    requires tail == [] || tail[0] == ' '
    ensures ParseVersion(NatToString(major) + tail) == Ok([major])
  {
    var a := NatToString(major);
    BeforeFirstOfDigits(a, tail, ' ');
    assert BeforeFirst(tail, ' ') == [];
    assert VersionToken(a + tail) == a;
    assert '.' !in a;
    assert VersionParts(a + tail) == [a];
    ParseIntOfNatToString(major);
    assert [a][1..] == [];
    assert ParseParts([]) == Ok([]);
    assert [major] + [] == [major];
    assert ParseParts([a]) == Ok([major]);
  }

  /** A Debian build's reply `"12.4 (Debian 12.4-1)"` is version 12.4. */
  lemma DebianVersionExample()
    ensures ParseVersion("12.4 (Debian 12.4-1)") == Ok([12, 4])
  {
    DebianReplyShape();
    MajorMinorRoundTrip(12, 4, " (Debian 12.4-1)");
  }

  lemma DebianReplyShape()
    ensures "12.4 (Debian 12.4-1)" == NatToString(12) + "." + NatToString(4) + " (Debian 12.4-1)"
  {
    assert NatToString(12) == "12" && NatToString(4) == "4";
    assert "12" + "." + "4" == "12.4";
    assert "12.4" + " (Debian 12.4-1)" == "12.4 (Debian 12.4-1)";
  }

  /** A three-component release `"9.6.3"` is version 9.6. */
  lemma PatchVersionExample()
    ensures ParseVersion("9.6.3") == Ok([9, 6])
  {
    assert "9.6.3" == NatToString(9) + "." + NatToString(6) + ".3" by {
      assert NatToString(9) == "9" && NatToString(6) == "6";
    }
    MajorMinorRoundTrip(9, 6, ".3");
  }

  /** A bare major release `"10"` is the one-element tuple `(10,)`. */
  lemma MajorOnlyExample()
    ensures ParseVersion("10") == Ok([10])
  {
    assert NatToString(10) == "10";
    MajorOnlyRoundTrip(10, "");
    assert "10" == NatToString(10) + "";
  }

  /** A pre-release reply such as `"10beta1"` makes `int()` raise. */
  lemma BetaVersionExample()
    ensures ParseVersion("10beta1") == Err(InvalidLiteral("10beta1"))
  {
    var reply := "10beta1";
    assert ' ' !in reply && '.' !in reply;
    BeforeFirstWithoutSep(reply, ' ');
    assert VersionParts(reply) == [reply];
    assert !IsDigit(reply[2]);
  }

  /** A version text whose first component is not an integer raises. */
  lemma NonIntegerMajorRaises(serverVersion: string)
    requires ParseInt(VersionParts(serverVersion)[0]).None?
    ensures ParseVersion(serverVersion) == Err(InvalidLiteral(VersionParts(serverVersion)[0]))
  {
  }

  /**
   * Splitting a digit string followed by `rest` at a separator that is not a
   * digit stops where the digits stop, if `rest` starts with the separator.
   */
  lemma {:induction false} BeforeFirstOfDigits(digits: string, rest: string, sep: char)
    requires AllDigits(digits) && !IsDigit(sep)
    ensures BeforeFirst(digits + rest, sep) == digits + BeforeFirst(rest, sep)
  {
    if digits == [] {
      assert digits + rest == rest;
    } else {
      assert IsDigit(digits[0]);
      assert (digits + rest)[0] == digits[0] != sep;
      assert (digits + rest)[1..] == digits[1..] + rest;
      BeforeFirstOfDigits(digits[1..], rest, sep);
      assert digits == [digits[0]] + digits[1..];
    }
  }

  /**
   * Python's `<` on tuples of integers: the first differing component
   * decides, and a proper prefix is smaller than the longer tuple.
   */
  predicate Less(a: seq<int>, b: seq<int>)
    ensures Less(a, b) ==> b != []
    ensures |a| < |b| && a == b[..|a|] ==> Less(a, b)
  {
    if b == [] then false
    else if a == [] then true
    else if a[0] != b[0] then a[0] < b[0]
    else Less(a[1..], b[1..])
  }

  /** Python's `a >= b` on tuples of integers. */
  predicate AtLeast(a: seq<int>, b: seq<int>)
    ensures AtLeast(a, b) <==> a == b || Less(b, a)
  {
    LessTotal(a, b);
    LessAsymmetric(a, b);
    !Less(a, b)
  }

  lemma {:induction false} LessIrreflexive(a: seq<int>)
    ensures !Less(a, a)
  {
    if a != [] { LessIrreflexive(a[1..]); }
  }

  lemma {:induction false} LessTransitive(a: seq<int>, b: seq<int>, c: seq<int>)
    requires Less(a, b) && Less(b, c)
    ensures Less(a, c)
  {
    if a != [] && a[0] == b[0] && b[0] == c[0] {
      LessTransitive(a[1..], b[1..], c[1..]);
    }
  }

  /** No two tuples are each less than the other. */
  lemma LessAsymmetric(a: seq<int>, b: seq<int>)
    ensures !(Less(a, b) && Less(b, a))
  {
    if Less(a, b) && Less(b, a) {
      LessTransitive(a, b, a);
      LessIrreflexive(a);
    }
  }

  /** Tuple order is total: distinct tuples are ordered one way or the other. */
  lemma {:induction false} LessTotal(a: seq<int>, b: seq<int>)
    ensures a == b || Less(a, b) || Less(b, a)
  {
    if a != [] && b != [] && a[0] == b[0] {
      LessTotal(a[1..], b[1..]);
      if a[1..] == b[1..] {
        assert a == [a[0]] + a[1..] && b == [b[0]] + b[1..];
      }
    }
  }

  /** `>=` is transitive on version tuples. */
  lemma AtLeastTransitive(a: seq<int>, b: seq<int>, c: seq<int>)
    requires AtLeast(a, b) && AtLeast(b, c)
    ensures AtLeast(a, c)
  {
    if Less(a, c) {
      LessTotal(a, b);
      if a == b {
      } else {
        LessTransitive(b, a, c);
      }
    }
  }
}

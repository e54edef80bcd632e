/**
 * tryConvert: one argument token to a value of the parameter's type. Strings pass
 * through; booleans and numbers are decoded as one JSON value (RFC 8259); channels
 * and users are looked up by the id of a mention, then by the raw token.
 */
module Convert {
  import opened Wrappers
  import opened Decimal
  import opened Discord
  import opened Types
  import opened Errors
  import Text

  /**
   * strconv.ParseFloat(literal, bits) followed by the overflow check for the target
   * width: the value nearest the literal, or None when it is out of range.
   */
  type FloatDecoder = (nat, string) -> Option<real>

  /** Insignificant whitespace around a JSON value (section 2 of RFC 8259). */
  predicate IsJsonSpace(c: char) {
    c == ' ' || c == '\t' || c == '\n' || c == '\r'
  }

  function TrimJsonSpace(s: string): string
    decreases |s|
  {
    if |s| > 0 && IsJsonSpace(s[0]) then TrimJsonSpace(s[1..])
    else if |s| > 0 && IsJsonSpace(s[|s| - 1]) then TrimJsonSpace(s[..|s| - 1])
    else s
  }

  /** The run of digits at the start of s, and what follows it. */
  function SplitDigits(s: string): (string, string)
  {
    if |s| == 0 || !IsDigit(s[0]) then ([], s)
    else
      var (run, rest) := SplitDigits(s[1..]);
      ([s[0]] + run, rest)
  }

  /** The two parts make up s, the first is all digits, and it is the longest such run. */
  lemma {:induction false} SplitDigitsSpec(s: string)
    ensures SplitDigits(s).0 + SplitDigits(s).1 == s
    ensures AllDigits(SplitDigits(s).0)
    ensures SplitDigits(s).1 == [] || !IsDigit(SplitDigits(s).1[0])
  {
    if |s| > 0 && IsDigit(s[0]) {
      SplitDigitsSpec(s[1..]);
      var (run, rest) := SplitDigits(s[1..]);
      assert SplitDigits(s) == ([s[0]] + run, rest);
      assert [s[0]] + run + rest == [s[0]] + s[1..] == s;
      assert forall i :: 0 < i <= |run| ==> ([s[0]] + run)[i] == run[i - 1];
    }
  }

  /** Digits followed by a text that does not start with one split back into the two. */
  lemma {:induction false} SplitDigitsOf(x: string, y: string)
    requires AllDigits(x)
    requires y == [] || !IsDigit(y[0])
    ensures SplitDigits(x + y) == (x, y)
  {
    if x == [] {
      assert x + y == y;
    } else {
      SplitDigitsOf(x[1..], y);
      assert (x + y)[0] == x[0] && IsDigit(x[0]);
      assert (x + y)[1..] == x[1..] + y;
      assert SplitDigits(x + y) == ([x[0]] + x[1..], y);
      assert [x[0]] + x[1..] == x;
    }
  }

  function Magnitude(s: string): string {
    if |s| > 0 && s[0] == '-' then s[1..] else s
  }

  /** `int` of section 6 of RFC 8259: zero, or digits without a leading zero. */
  predicate JsonInt(s: string) {
    |s| > 0 && AllDigits(s) && (s[0] == '0' ==> |s| == 1)
  }

  /** An optional `exp` part, and nothing after it. */
  predicate JsonExp(s: string) {
    s == [] ||
    ((s[0] == 'e' || s[0] == 'E') &&
     var t := if |s| > 1 && (s[1] == '+' || s[1] == '-') then s[2..] else s[1..];
     |t| > 0 && AllDigits(t))
  }

  /** An optional `frac` part, then an optional `exp` part. */
  predicate JsonFracExp(s: string) {
    if |s| > 0 && s[0] == '.' then
      var (fraction, rest) := SplitDigits(s[1..]);
      |fraction| > 0 && JsonExp(rest)
    else JsonExp(s)
  }

  /** `number` of section 6 of RFC 8259. */
  predicate JsonNumber(s: string) {
    var (whole, rest) := SplitDigits(Magnitude(s));
    JsonInt(whole) && JsonFracExp(rest)
  }

  /** A JSON number with neither fraction nor exponent: what strconv.ParseInt reads. */
  predicate JsonInteger(s: string) {
    JsonInt(Magnitude(s))
  }

  predicate JsonDecodable(k: Kind) {
    k.Bool? || IsInteger(k) || IsFloat(k)
  }

  /** The zero value of kind k, which the JSON literal null leaves in place. */
  function Zero(k: Kind): Val
    requires JsonDecodable(k)
  {
    if k.Bool? then BoolV(false) else if IsFloat(k) then FloatV(0.0) else IntV(0)
  }

  /**
   * json.Unmarshal of the token into a new variable of kind k: null keeps the zero
   * value, true and false fill a bool, a number fills a number of the right kind,
   * and everything else (malformed text, the wrong kind of literal, a fraction
   * for an integer, a sign for an unsigned integer, a value out of range) fails.
   */
  function DecodeJson(k: Kind, token: string, pf: FloatDecoder): (r: Result<Val, Cause>)
    requires JsonDecodable(k)
    ensures r.Success? && k.Bool? ==> r.value.BoolV?
    ensures r.Success? && IsInteger(k) ==> r.value.IntV? && InRange(k, r.value.i)
    ensures r.Success? && IsFloat(k) ==> r.value.FloatV?
    ensures r.Failure? ==> r.error == Json(token)
    ensures var lit := TrimJsonSpace(token);
      (lit == "null" ==> r == Success(Zero(k))) &&
      (k.Bool? ==> (r.Success? <==> lit == "null" || lit == "true" || lit == "false")) &&
      (k.Bool? && r.Success? && lit != "null" ==> r.value == BoolV(lit == "true")) &&
      (!k.Bool? && (lit == "true" || lit == "false") ==> r.Failure?) &&
      (IsInteger(k) && r.Success? && lit != "null" ==> JsonInteger(lit) && ParseInt(lit) == Some(r.value.i)) &&
      (IsFloat(k) && r.Success? && lit != "null" ==> JsonNumber(lit) && pf(Bits(k), lit) == Some(r.value.x)) &&
      (lit != "null" && lit != "true" && lit != "false" && !JsonNumber(lit) ==> r.Failure?)
  {
    var lit := TrimJsonSpace(token);
    if lit == "null" then Success(Zero(k))
    else if lit == "true" || lit == "false" then
      if k.Bool? then Success(BoolV(lit == "true")) else Failure(Json(token))
    else if !JsonNumber(lit) || k.Bool? then Failure(Json(token))
    else if IsFloat(k) then
      match pf(Bits(k), lit)
      case None => Failure(Json(token))
      case Some(x) => Success(FloatV(x))
    else DecodeInteger(k, lit, token)
  }

  /** A JSON number into an integer of kind k. */
  function DecodeInteger(k: Kind, lit: string, token: string): (r: Result<Val, Cause>)
    requires IsInteger(k)
    ensures r.Success? ==> r.value.IntV? && InRange(k, r.value.i)
    ensures r.Failure? ==> r.error == Json(token)
    ensures r.Success? <==>
      JsonInteger(lit) && !(IsUnsigned(k) && lit[0] == '-') && ParseInt(lit).Some? && InRange(k, ParseInt(lit).value)
    ensures r.Success? ==> r.value == IntV(ParseInt(lit).value)
  {
    if !JsonInteger(lit) || (IsUnsigned(k) && lit[0] == '-') then Failure(Json(token))
    else
      JsonIntegerParses(lit);
      var v := ParseInt(lit).value;
      if InRange(k, v) then Success(IntV(v)) else Failure(Json(token))
  }

  lemma JsonIntegerParses(lit: string)
    requires JsonInteger(lit)
    ensures ParseInt(lit).Some?
  {
  }

  /**
   * fmt.Sscanf(token, marker + "%d>", &id) into a uint64 that starts at 0: the
   * digits right after the marker, if there are any and they fit in 64 bits.
   * The id is stored before the closing '>' is matched, so what follows the
   * digits does not matter.
   */
  function MentionId(token: string, marker: string): (id: nat)
    ensures id < UINT64_SPAN
    ensures !Text.HasPrefix(token, marker) ==> id == 0
    ensures id != 0 ==>
      Text.HasPrefix(token, marker) && |token| > |marker| && IsDigit(token[|marker|])
  {
    if !Text.HasPrefix(token, marker) then 0
    else
      var (digits, _) := SplitDigits(token[|marker|..]);
      if digits == [] then 0
      else
        SplitDigitsSpec(token[|marker|..]);
        var id := DigitsValue(digits);
        if id < UINT64_SPAN then id else 0
  }

  const UINT64_SPAN := 0x1_0000_0000_0000_0000
  const CHANNEL_MENTION := "<#"
  const USER_MENTION := "<@!"

  /**
   * A channel named by the id in a channel mention, else by the token itself; the
   * id of a token that is not a mention is 0.
   */
  function LookupChannel(s: Session, token: string): (r: Result<Val, Cause>)
    ensures r.Success? <==> NatText(MentionId(token, CHANNEL_MENTION)) in s.channels || token in s.channels
    ensures r.Success? ==> r.value.ChannelV? && r.value.channel in s.channels.Values
    ensures r.Failure? ==> r.error == NoChannel
    ensures var id := NatText(MentionId(token, CHANNEL_MENTION));
      (id in s.channels ==> r == Success(ChannelV(s.channels[id]))) &&
      (id !in s.channels && token in s.channels ==> r == Success(ChannelV(s.channels[token])))
  {
    var id := NatText(MentionId(token, CHANNEL_MENTION));
    if id in s.channels then Success(ChannelV(s.channels[id]))
    else if token in s.channels then Success(ChannelV(s.channels[token]))
    else Failure(NoChannel)
  }

  /** The same for users, with the "<@!" mention. */
  function LookupUser(s: Session, token: string): (r: Result<Val, Cause>)
    ensures r.Success? <==> NatText(MentionId(token, USER_MENTION)) in s.users || token in s.users
    ensures r.Success? ==> r.value.UserV? && r.value.user in s.users.Values
    ensures r.Failure? ==> r.error == NoUser
    ensures var id := NatText(MentionId(token, USER_MENTION));
      (id in s.users ==> r == Success(UserV(s.users[id]))) &&
      (id !in s.users && token in s.users ==> r == Success(UserV(s.users[token])))
  {
    var id := NatText(MentionId(token, USER_MENTION));
    if id in s.users then Success(UserV(s.users[id]))
    else if token in s.users then Success(UserV(s.users[token]))
    else Failure(NoUser)
  }

  /**
   * tryConvert for a parameter (or slice element) of type t. The requires is what
   * Command checked of every parameter type.
   */
  function TryConvert(s: Session, t: Scalar, token: string, pf: FloatDecoder): (r: Result<Val, Cause>)
    requires !Illegal(ScalarKind(t))
    ensures r.Success? ==> HasType(r.value, t)
    ensures t == Plain(String) ==> r == Success(StrV(token))
    ensures t.PtrTo? && !t.referent.ChannelT? && !t.referent.UserT? ==>
      r == Failure(UnsupportedPointer(ReferentName(t.referent)))
  {
    match t
    case Plain(k) => if k.String? then Success(StrV(token)) else DecodeJson(k, token, pf)
    case PtrTo(ChannelT) => LookupChannel(s, token)
    case PtrTo(UserT) => LookupUser(s, token)
    case PtrTo(r) => Failure(UnsupportedPointer(ReferentName(r)))
  }

  /** The %d text of an integer is a bare JSON integer that reads back as it. */
  lemma IntTextIsJsonInteger(i: int)
    ensures TrimJsonSpace(IntText(i)) == IntText(i)
    ensures JsonNumber(IntText(i)) && JsonInteger(IntText(i))
    ensures ParseInt(IntText(i)) == Some(i)
    ensures IntText(i)[0] == '-' <==> i < 0
    ensures IntText(i) != "null" && IntText(i) != "true" && IntText(i) != "false"
  {
    var t := IntText(i);
    var m: nat := if i < 0 then -i else i;
    NatTextRoundTrip(m);
    IntTextRoundTrip(i);
    var digits := NatText(m);
    assert Magnitude(t) == digits;
    assert !IsJsonSpace(t[0]) && !IsJsonSpace(t[|t| - 1]);
    assert t[0] == '-' || IsDigit(t[0]);
    SplitDigitsOf(digits, []);
    assert digits + [] == digits;
  }

  /** A token that starts with a sign or digit and ends with a digit has no space to trim and is no keyword. */
  lemma BareToken(token: string)
    requires |token| > 0 && (token[0] == '-' || IsDigit(token[0])) && IsDigit(token[|token| - 1])
    ensures TrimJsonSpace(token) == token
    ensures token != "null" && token != "true" && token != "false"
  {
    assert !IsDigit('n') && !IsDigit('t') && !IsDigit('f');
  }

  /** json.Unmarshal of a bare JSON number into a numeric kind. */
  lemma NumberDecodes(k: PlainKind, token: string, pf: FloatDecoder)
    requires IsInteger(k) || IsFloat(k)
    requires JsonNumber(token)
    requires |token| > 0 && (token[0] == '-' || IsDigit(token[0])) && IsDigit(token[|token| - 1])
    ensures DecodeJson(k, token, pf) ==
      if IsInteger(k) then DecodeInteger(k, token, token)
      else match pf(Bits(k), token)
        case None => Failure(Json(token))
        case Some(x) => Success(FloatV(x))
  {
    BareToken(token);
  }

  /**
   * A bare JSON number for a numeric parameter: a float parameter gets whatever the
   * float decoder makes of it at the parameter's width, an integer parameter what
   * DecodeInteger makes of it.
   */
  lemma NumberConverts(s: Session, k: PlainKind, token: string, pf: FloatDecoder)
    requires IsInteger(k) || IsFloat(k)
    requires JsonNumber(token)
    requires |token| > 0 && (token[0] == '-' || IsDigit(token[0])) && IsDigit(token[|token| - 1])
    ensures TryConvert(s, Plain(k), token, pf) ==
      if IsInteger(k) then DecodeInteger(k, token, token)
      else match pf(Bits(k), token)
        case None => Failure(Json(token))
        case Some(x) => Success(FloatV(x))
  {
    NumberDecodes(k, token, pf);
  }

  /** The %d text of an integer converts back to it exactly when it fits the kind. */
  lemma IntegerTextConverts(s: Session, k: PlainKind, i: int, pf: FloatDecoder)
    requires IsInteger(k)
    ensures TryConvert(s, Plain(k), IntText(i), pf) ==
      if InRange(k, i) then Success(IntV(i)) else Failure(Json(IntText(i)))
  {
    var t := IntText(i);
    IntTextIsJsonInteger(i);
    NumberConverts(s, k, t, pf);
    IntegerDecodes(k, i);
  }

  /** The %d text of an integer decodes to it exactly when it fits the kind. */
  lemma IntegerDecodes(k: PlainKind, i: int)
    requires IsInteger(k)
    ensures DecodeInteger(k, IntText(i), IntText(i)) ==
      if InRange(k, i) then Success(IntV(i)) else Failure(Json(IntText(i)))
  {
    IntTextIsJsonInteger(i);
  }

  /**
   * The id scanned from a mention written as marker, the id's shortest digits and
   * anything that does not start with a digit.
   */
  lemma MentionRoundTrip(marker: string, n: nat, tail: string)
    requires n < UINT64_SPAN
    requires tail == [] || !IsDigit(tail[0])
    ensures MentionId(marker + NatText(n) + tail, marker) == n
  {
    var digits := NatText(n);
    NatTextRoundTrip(n);
    var token := marker + digits + tail;
    assert Text.HasPrefix(token, marker) by {
      assert token[..|marker|] == marker;
    }
    var rest := token[|marker|..];
    assert rest == digits + tail;
    SplitDigitsOf(digits, tail);
  }

  /** An id of 2^64 or more overflows the scan, which leaves the id at 0. */
  lemma MentionOverflow(marker: string, n: nat, tail: string)
    requires n >= UINT64_SPAN
    requires tail == [] || !IsDigit(tail[0])
    ensures MentionId(marker + NatText(n) + tail, marker) == 0
  {
    var digits := NatText(n);
    NatTextRoundTrip(n);
    var token := marker + digits + tail;
    assert Text.HasPrefix(token, marker) by {
      assert token[..|marker|] == marker;
    }
    assert token[|marker|..] == digits + tail;
    SplitDigitsOf(digits, tail);
  }

  /** A channel mention of a known channel converts to that channel. */
  lemma ChannelMentionConverts(s: Session, n: nat, pf: FloatDecoder)
    requires n < UINT64_SPAN && NatText(n) in s.channels
    ensures TryConvert(s, PtrTo(ChannelT), CHANNEL_MENTION + NatText(n) + ">", pf) ==
      Success(ChannelV(s.channels[NatText(n)]))
  {
    MentionRoundTrip(CHANNEL_MENTION, n, ">");
  }

  /** A user mention of a known user converts to that user. */
  lemma UserMentionConverts(s: Session, n: nat, pf: FloatDecoder)
    requires n < UINT64_SPAN && NatText(n) in s.users
    ensures TryConvert(s, PtrTo(UserT), USER_MENTION + NatText(n) + ">", pf) ==
      Success(UserV(s.users[NatText(n)]))
  {
    MentionRoundTrip(USER_MENTION, n, ">");
  }

  /**
   * A token that is not a channel mention scans as id 0, so a channel whose id is
   * "0" is found for it before the token itself is looked up.
   */
  lemma NonMentionFindsChannelZero(s: Session, token: string, pf: FloatDecoder)
    requires !Text.HasPrefix(token, CHANNEL_MENTION) && "0" in s.channels
    ensures TryConvert(s, PtrTo(ChannelT), token, pf) == Success(ChannelV(s.channels["0"]))
  {
    assert NatText(0) == "0";
  }

  /** The same for users: a token that is not a "<@!" mention finds user "0" first. */
  lemma NonMentionFindsUserZero(s: Session, token: string, pf: FloatDecoder)
    requires !Text.HasPrefix(token, USER_MENTION) && "0" in s.users
    ensures TryConvert(s, PtrTo(UserT), token, pf) == Success(UserV(s.users["0"]))
  {
    assert NatText(0) == "0";
  }

  /** A raw channel id, not a mention, finds that channel when there is no channel "0". */
  lemma PlainIdFindsChannel(s: Session, token: string, pf: FloatDecoder)
    requires !Text.HasPrefix(token, CHANNEL_MENTION) && "0" !in s.channels && token in s.channels
    ensures TryConvert(s, PtrTo(ChannelT), token, pf) == Success(ChannelV(s.channels[token]))
  {
    assert NatText(0) == "0";
  }

  /** A raw user id, not a mention, finds that user when there is no user "0". */
  lemma PlainIdFindsUser(s: Session, token: string, pf: FloatDecoder)
    requires !Text.HasPrefix(token, USER_MENTION) && "0" !in s.users && token in s.users
    ensures TryConvert(s, PtrTo(UserT), token, pf) == Success(UserV(s.users[token]))
  {
    assert NatText(0) == "0";
  }

  /** The integers of the package's own tests. */
  lemma TestedInteger(s: Session, k: PlainKind, token: string, pf: FloatDecoder)
    requires (k, token) == (Uint, "8192") || (k, token) == (Int, "-3")
    ensures TryConvert(s, Plain(k), token, pf) == Success(IntV(if k == Uint then 8192 else -3))
  {
    if k == Uint {
      assert token == IntText(8192) by {
        assert NatText(8) == "8" && NatText(81) == "81" && NatText(819) == "819";
      }
      IntegerTextConverts(s, k, 8192, pf);
    } else {
      assert token == IntText(-3);
      IntegerTextConverts(s, k, -3, pf);
    }
  }

  /** A sign for an unsigned parameter, and a value too wide for a byte. */
  lemma RejectedInteger(s: Session, k: PlainKind, token: string, pf: FloatDecoder)
    requires (k, token) == (Uint, "-3") || (k, token) == (Uint8, "256")
    ensures TryConvert(s, Plain(k), token, pf) == Failure(Json(token))
  {
    if k == Uint {
      assert token == IntText(-3);
      IntegerTextConverts(s, k, -3, pf);
    } else {
      assert token == IntText(256) by {
        assert NatText(2) == "2" && NatText(25) == "25";
      }
      IntegerTextConverts(s, k, 256, pf);
    }
  }

  /** Strings and JSON literals of the package's own tests, and two it does not test. */
  lemma LiteralExamples(s: Session, pf: FloatDecoder)
    ensures TryConvert(s, Plain(String), "yes", pf) == Success(StrV("yes"))
    ensures TryConvert(s, Plain(Bool), "true", pf) == Success(BoolV(true))
    ensures TryConvert(s, Plain(Bool), "false", pf) == Success(BoolV(false))
    ensures TryConvert(s, Plain(Int), "yes", pf) == Failure(Json("yes"))
    ensures TryConvert(s, Plain(Int), "null", pf) == Success(IntV(0))
  {
    assert TrimJsonSpace("true") == "true";
    assert TrimJsonSpace("false") == "false";
    assert TrimJsonSpace("null") == "null";
    assert TrimJsonSpace("yes") == "yes";
    assert SplitDigits("yes") == ([], "yes");
  }

  /** Digits, a point and digits: a JSON number with a fraction. */
  lemma FractionIsJsonNumber(whole: string, frac: string)
    requires JsonInt(whole) && AllDigits(frac) && |frac| > 0
    ensures JsonNumber(whole + "." + frac)
  {
    var t := whole + "." + frac;
    assert Magnitude(t) == t;
    assert t == whole + ("." + frac);
    SplitDigitsOf(whole, "." + frac);
    assert ("." + frac)[1..] == frac + [];
    SplitDigitsOf(frac, []);
  }

  /** Digits, a point and digits, for a float parameter, go to the float decoder unchanged. */
  lemma FractionConverts(s: Session, k: PlainKind, whole: string, frac: string, pf: FloatDecoder)
    requires IsFloat(k)
    requires JsonInt(whole) && AllDigits(frac) && |frac| > 0
    ensures var t := whole + "." + frac;
      TryConvert(s, Plain(k), t, pf) ==
        match pf(Bits(k), t)
        case None => Failure(Json(t))
        case Some(x) => Success(FloatV(x))
  {
    var t := whole + "." + frac;
    FractionIsJsonNumber(whole, frac);
    assert t[0] == whole[0] && t[|t| - 1] == frac[|frac| - 1];
    NumberConverts(s, k, t, pf);
  }

  /**
   * A float of the package's own tests goes to the float decoder unchanged (the
   * token is a parameter so that the verifier does not evaluate the conversion of
   * a literal step by step).
   */
  lemma TestedFloat(s: Session, token: string, pf: FloatDecoder)
    requires token == "2.3"
    requires pf(64, token).Some?
    ensures TryConvert(s, Plain(Float64), token, pf) == Success(FloatV(pf(64, token).value))
  {
    assert token == "2" + "." + "3";
    FractionConverts(s, Float64, "2", "3", pf);
  }
}

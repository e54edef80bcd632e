/**
 * The error types a caller can tell apart at run time: a wrong number of
 * arguments, a refused predicate, and a token that could not become a value.
 */
module Errors {
  import opened Wrappers
  import opened Decimal
  import Text

  /** Why a token could not be converted (the error UnmarshalError wraps). */
  datatype Cause =
    | Json(token: string)                  // encoding/json refused the token for the target type
    | NoChannel                            // neither the mention nor the raw token named a channel
    | NoUser                               // neither the mention nor the raw token named a user
    | UnsupportedPointer(typeName: string) // a pointer to a type the converter does not know
  {
    /**
     * The error text: tryConvert marks its own failures as its own, a pointer
     * failure names the type, and a decoding failure is encoding/json's.
     */
    function Message(): (text: string)
      ensures !Json? <==> Text.HasPrefix(text, TRY_CONVERT)
      ensures NoChannel? ==> text == TRY_CONVERT + "cannot parse channel"
      ensures NoUser? ==> text == TRY_CONVERT + "cannot parse user"
      ensures UnsupportedPointer? ==> text == TRY_CONVERT + "can't unmarshal pointer to " + typeName
    {
      match this
      case Json(token) =>
        var text := "json: cannot unmarshal " + token;
        assert text[0] != TRY_CONVERT[0];
        text
      case NoChannel => TRY_CONVERT + "cannot parse channel"
      case NoUser => TRY_CONVERT + "cannot parse user"
      case UnsupportedPointer(name) => TRY_CONVERT + "can't unmarshal pointer to " + name
    }
  }

  const TRY_CONVERT := "tryConvert: "
  const CANNOT_UNMARSHAL := "cannot unmarshal arguments: "

  datatype CmdError =
    | ArgCountMismatch(expected: int, got: int)
    | AccessDenied
    | UnmarshalError(why: Cause)
  {
    /**
     * The Error() text of each type: the counts after "expected ", the fixed text of
     * a refusal, and the cause's own text after the unmarshal prefix.
     */
    function Error(): (text: string)
      ensures ArgCountMismatch? <==> Text.HasPrefix(text, "expected ")
      ensures AccessDenied? <==> text == "access denied"
      ensures UnmarshalError? <==> Text.HasPrefix(text, CANNOT_UNMARSHAL)
      ensures UnmarshalError? ==> text[|CANNOT_UNMARSHAL|..] == why.Message()
    {
      match this
      case ArgCountMismatch(expected, got) =>
        var text := "expected " + IntText(expected) + " arguments but got " + IntText(got);
        assert text[0] != CANNOT_UNMARSHAL[0] && text[..9] == "expected ";
        text
      case AccessDenied =>
        var text := "access denied";
        assert text[0] != "expected "[0] && text[0] != CANNOT_UNMARSHAL[0];
        text
      case UnmarshalError(why) =>
        var text := CANNOT_UNMARSHAL + why.Message();
        assert text[0] != "expected "[0] && text[..|CANNOT_UNMARSHAL|] == CANNOT_UNMARSHAL;
        text
    }
  }

  const ARGUMENTS_BUT_GOT := " arguments but got "

  /** Reads Expected and Got back out of an ArgCountMismatch message. */
  function ParseArgCountMismatch(text: string): Option<(int, int)> {
    if !Text.HasPrefix(text, "expected ") then None
    else
      var rest := text[|"expected "|..];
      match Text.IndexOf(rest, " ")
      case None => None
      case Some(i) =>
        var tail := rest[i..];
        if !Text.HasPrefix(tail, ARGUMENTS_BUT_GOT) then None
        else
          match (ParseInt(rest[..i]), ParseInt(tail[|ARGUMENTS_BUT_GOT|..]))
          case (Some(e), Some(g)) => Some((e, g))
          case _ => None
  }

  /** The message of an ArgCountMismatch carries both counts, in decimal, recoverably. */
  lemma ArgCountMismatchRoundTrip(expected: int, got: int)
    ensures ParseArgCountMismatch(ArgCountMismatch(expected, got).Error()) == Some((expected, got))
  {
    IntTextHasNoSpace(expected);
    IntTextRoundTrip(expected);
    IntTextRoundTrip(got);
    ParseCounts(IntText(expected), IntText(got));
  }

  /** Two numerals around the fixed words read back as their values. */
  lemma ParseCounts(a: string, b: string)
    requires ' ' !in a && ParseInt(a).Some? && ParseInt(b).Some?
    ensures ParseArgCountMismatch("expected " + a + ARGUMENTS_BUT_GOT + b) == Some((ParseInt(a).value, ParseInt(b).value))
  {
    var rest := a + ARGUMENTS_BUT_GOT + b;
    var text := "expected " + a + ARGUMENTS_BUT_GOT + b;
    assert text[|"expected "|..] == rest;
    FirstSpace(a, ARGUMENTS_BUT_GOT + b);
    assert rest == a + (ARGUMENTS_BUT_GOT + b);
    assert rest[..|a|] == a;
    assert rest[|a|..] == ARGUMENTS_BUT_GOT + b;
  }

  /** The first space of a space-free text followed by a space is right after that text. */
  lemma FirstSpace(a: string, t: string)
    requires ' ' !in a && |t| > 0 && t[0] == ' '
    ensures Text.IndexOf(a + t, " ") == Some(|a|)
  {
    var s := a + t;
    assert Text.OccursAt(s, " ", |a|) by {
      assert s[|a|..|a| + 1] == [t[0]];
    }
    var i := Text.IndexOf(s, " ").value;
    assert s[i..i + 1] == " " && s[i] == ' ';
  }

  /** The three messages never coincide: the text alone tells the error's type. */
  lemma MessagesTellTypesApart(x: CmdError, y: CmdError)
    requires x.Error() == y.Error()
    ensures x.ArgCountMismatch? == y.ArgCountMismatch?
    ensures x.AccessDenied? == y.AccessDenied?
    ensures x.UnmarshalError? == y.UnmarshalError?
  {
    assert x.Error()[0] == y.Error()[0];
  }
}

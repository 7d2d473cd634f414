/** Bearer tokens of the local API: `parseBearerToken` and `constantTimeTokenEquals` of src/api/LocalApi.cpp. */
module ApiToken {
  import opened Text
  import Fips180
  import Hmac
  import Beacons

  // ---------------------------------------------------------------- the header

  predicate IsBlank(c: char) { c == ' ' || c == '\t' }

  /** `std::tolower` in the C locale. */
  function Lower(c: char): char { if 'A' <= c <= 'Z' then (c as int + 32) as char else c }

  const SCHEME: string := "Bearer "

  /** The scheme name in any case, then one space. */
  predicate HasScheme(header: string) {
    && |header| > |SCHEME|
    && (forall i :: 0 <= i < |SCHEME| - 1 ==> Lower(header[i]) == Lower(SCHEME[i]))
    && header[|SCHEME| - 1] == ' '
  }

  /** How far the text reaches before its trailing blanks; 0 when it is all blank. */
  function TextEnd(s: string): (n: nat)
    ensures n <= |s| && (n > 0 ==> !IsBlank(s[n - 1])) && forall j :: n <= j < |s| ==> IsBlank(s[j])
  {
    if s == "" then 0 else if !IsBlank(s[|s| - 1]) then |s| else TextEnd(s[..|s| - 1])
  }

  /** The first character that is not blank. */
  function TextBegin(s: string, from: nat): (n: nat)
    requires from <= |s|
    ensures from <= n <= |s| && (n < |s| ==> !IsBlank(s[n])) && forall j :: from <= j < n ==> IsBlank(s[j])
    decreases |s| - from
  {
    if from == |s| || !IsBlank(s[from]) then from else TextBegin(s, from + 1)
  }

  function ParseBearer(header: string): (token: Option<string>)
    ensures token.Some? ==> token.value != "" && !IsBlank(token.value[0]) && !IsBlank(token.value[|token.value| - 1])
  {
    if !HasScheme(header) then None
    else
      var token := header[|SCHEME|..];
      if TextBegin(token, 0) == |token| then None else Some(token[TextBegin(token, 0)..TextEnd(token)])
  }

  method ParseBearerToken(header: string) returns (token: Option<string>)
    ensures token == ParseBearer(header)
  {
    if |header| <= |SCHEME| { return None; }
    for i := 0 to |SCHEME| - 1
      invariant forall j :: 0 <= j < i ==> Lower(header[j]) == Lower(SCHEME[j])
    {
      if Lower(header[i]) != Lower(SCHEME[i]) { return None; }
    }
    if header[|SCHEME| - 1] != ' ' { return None; }
    var rest := header[|SCHEME|..];
    var first := TextBegin(rest, 0);
    if first == |rest| { return None; }
    var last := TextEnd(rest);
    token := Some(rest[first..last]);
  }

  predicate Trimmed(token: string) { token != "" && !IsBlank(token[0]) && !IsBlank(token[|token| - 1]) }

  /**
   * A token presented as it is arrives as it is exactly when it neither begins nor ends with a blank. The
   * token file is trimmed at its end only, so a configured token that begins with a blank locks everyone out.
   */
  lemma PresentedTokenArrivesIffTrimmed(token: string)
    ensures ParseBearer("Bearer " + token) == Some(token) <==> Trimmed(token)
  {
    var header := "Bearer " + token;
    assert header[|SCHEME|..] == token;
    if Trimmed(token) {
      assert TextBegin(token, 0) == 0;
      assert TextEnd(token) == |token|;
      assert token[0..|token|] == token;
    }
  }

  predicate Blank(s: string) { forall i :: 0 <= i < |s| ==> s[i] == ' ' || s[i] == '\t' }

  /** `s` is a token, which neither begins nor ends with a blank, with blanks `before` and `after` it. */
  predicate Surrounds(s: string, before: string, token: string, after: string) {
    Trimmed(token) && Blank(before) && Blank(after) && s == before + token + after
  }

  /** Exactly which headers carry a token: `bearer` in any mixture of cases, one space, and the token in blanks. */
  lemma BearerHeaderIff(header: string, token: string)
    ensures ParseBearer(header) == Some(token) <==>
      && |header| >= 7 && header[6] == ' '
      && (forall i :: 0 <= i < 6 ==> header[i] == "bearer"[i] || header[i] == "BEARER"[i])
      && exists before, after :: Surrounds(header[7..], before, token, after)
  {
    SchemeInAnyCase(header);
    if HasScheme(header) {
      TrimmedPartIff(header[7..], token);
    }
  }

  lemma SchemeInAnyCase(header: string)
    ensures HasScheme(header) <==>
      |header| > 7 && header[6] == ' ' && forall i :: 0 <= i < 6 ==> header[i] == "bearer"[i] || header[i] == "BEARER"[i]
  {
    assert forall i :: 0 <= i < 6 ==> Lower(SCHEME[i]) == "bearer"[i] && "bearer"[i] as int == "BEARER"[i] as int + 32;
    assert forall i :: 0 <= i < 6 ==> 'A' <= "BEARER"[i] <= 'Z';
  }

  lemma TrimmedPartIff(s: string, token: string)
    ensures TextBegin(s, 0) < |s| && s[TextBegin(s, 0)..TextEnd(s)] == token
       <==> exists before, after :: Surrounds(s, before, token, after)
  {
    hide Surrounds, IsBlank, TextBegin, TextEnd;
    var first, last := TextBegin(s, 0), TextEnd(s);
    if first < |s| { TrimmedPart(s, first, last); }
    if before, after :| Surrounds(s, before, token, after) { PaddedTokenIsFound(s, before, token, after); }
  }

  lemma TrimmedPart(s: string, first: nat, last: nat)
    requires first < last <= |s| && !IsBlank(s[first]) && !IsBlank(s[last - 1])
    requires forall j :: 0 <= j < first || last <= j < |s| ==> IsBlank(s[j])
    ensures Surrounds(s, s[..first], s[first..last], s[last..])
  {
  }

  lemma PaddedTokenIsFound(s: string, before: string, token: string, after: string)
    requires Surrounds(s, before, token, after)
    ensures TextBegin(s, 0) == |before| < |s| && TextEnd(s) == |before| + |token|
    ensures s[|before|..|before| + |token|] == token
  {
    assert s[|before|] == token[0] && s[|before| + |token| - 1] == token[|token| - 1];
    forall j | 0 <= j < |before| ensures IsBlank(s[j]) { assert s[j] == before[j]; }
    forall j | |before| + |token| <= j < |s| ensures IsBlank(s[j]) { assert s[j] == after[j - |before| - |token|]; }
    hide IsBlank;
  }

  // ---------------------------------------------------------------- the comparison

  function ByteAt(s: string, i: nat): Fips180.Byte { if i < |s| then Fips180.LowByte(s[i] as int) else 0 }

  /** What the comparison accepts: the expected bytes in front, and lengths equal modulo 2^32. */
  predicate TokenAccepted(presented: string, expected: string) {
    && |presented| % 0x1_0000_0000 == |expected| % 0x1_0000_0000
    && forall i :: 0 <= i < |expected| ==> ByteAt(presented, i) == ByteAt(expected, i)
  }

  method ConstantTimeTokenEquals(presented: string, expected: string) returns (equal: bool)
    ensures equal <==> TokenAccepted(presented, expected)
  {
    hide Hmac.FoldLengths, Hmac.FoldByte, ByteAt;
    var difference := Hmac.FoldLengths(|presented|, |expected|);
    Hmac.FoldLengthsIsZero(|presented|, |expected|);
    for i := 0 to |expected|
      invariant difference == 0 <==>
        && |presented| % 0x1_0000_0000 == |expected| % 0x1_0000_0000
        && forall j :: 0 <= j < i ==> ByteAt(presented, j) == ByteAt(expected, j)
    {
      Hmac.FoldByteIsZero(difference, ByteAt(presented, i), ByteAt(expected, i));
      difference := Hmac.FoldByte(difference, ByteAt(presented, i), ByteAt(expected, i));
    }
    equal := difference == 0;
  }

  /** For tokens shorter than 2^32 bytes the comparison is equality. */
  lemma TokenAcceptedIsEquality(presented: string, expected: string)
    requires |presented| < 0x1_0000_0000 && |expected| < 0x1_0000_0000
    requires Beacons.IsByteString(presented) && Beacons.IsByteString(expected)
    ensures TokenAccepted(presented, expected) <==> presented == expected
  {
    hide Fips180.LowByte;
    if TokenAccepted(presented, expected) {
      forall i | 0 <= i < |expected| ensures Beacons.BytesOf(presented)[i] == Beacons.BytesOf(expected)[i] {
        assert ByteAt(presented, i) == ByteAt(expected, i);
      }
      Beacons.BytesDetermineString(presented, expected);
    }
  }

  /** It is not for longer ones: the expected token with 2^32 more bytes is accepted as well. */
  lemma LongTokenIsAccepted(expected: string)
    ensures var presented := expected + seq(0x1_0000_0000, _ => 'x'); TokenAccepted(presented, expected) && presented != expected
  {
    hide Fips180.LowByte;
    var more := seq(0x1_0000_0000, _ => 'x');
    assert |expected + more| == |expected| + 0x1_0000_0000;
  }
}

/** What the core sees of HTTP: status codes, the OAuth 2.0 token response (section 5.1 of
    RFC 6749) as a JSON object, the JsonElement accessors used on it, int.TryParse, and the
    Authorization header values. */
module Http {
  import opened Common

  /** HttpResponseMessage.IsSuccessStatusCode. */
  predicate IsSuccessStatusCode(status: int) {
    200 <= status <= 299
  }

  /** 401 Unauthorized (section 15.5.2 of RFC 9110). */
  const Unauthorized: int := 401

  /** Authorization header values: a bearer token (section 2.1 of RFC 6750) or a Basic
      credential (section 2 of RFC 7617) whose user-pass is kept before base64 encoding. */
  datatype AuthHeader = Bearer(token: string) | Basic(userPass: string)

  /** A JSON value, as far as the token responses are inspected. `JInteger` is a number with no
      fractional part, `JFraction` any other number, `JOther` an object, array or boolean. */
  datatype Json = JString(s: string) | JInteger(n: int) | JFraction | JNull | JOther

  /** A token endpoint's reply: its status and, when the body parses as a JSON object, its
      properties. */
  datatype TokenResponse = TokenResponse(status: int, body: Option<map<string, Json>>)

  /** JsonElement.GetString: a string, null for a JSON null, and an exception for any other kind. */
  function GetString(j: Json): Result<Option<string>, Error> {
    match j
    case JString(s) => Ok(Some(s))
    case JNull => Ok(None)
    case _ => Err(InvalidOperation)
  }

  /** JsonElement.TryGetInt32: false for a number that is not a 32-bit integer, and an exception
      when the value is not a number at all. */
  function TryGetInt32(j: Json): Result<Option<int>, Error> {
    match j
    case JInteger(n) => if IsInt32(n) then Ok(Some(n)) else Ok(None)
    case JFraction => Ok(None)
    case _ => Err(InvalidOperation)
  }

  /** The value a form-urlencoded body (FormUrlEncodedContent) carries under `name`, as a server
      reads it: the first field with that name, None when there is none. */
  function FormValue<V>(form: seq<(string, V)>, name: string): Option<V> {
    if form == [] then None
    else if form[0].0 == name then Some(form[0].1)
    else FormValue(form[1..], name)
  }

  /** A four-field form carries each field's value under its name, the first one winning, and
      nothing under any other name. */
  lemma FormValueOfFour<V>(a: (string, V), b: (string, V), c: (string, V), d: (string, V))
    ensures forall name ::
              FormValue([a, b, c, d], name) ==
                (if a.0 == name then Some(a.1) else if b.0 == name then Some(b.1)
                 else if c.0 == name then Some(c.1) else if d.0 == name then Some(d.1) else None)
  {
    assert [a, b, c, d][1..] == [b, c, d];
    assert [b, c, d][1..] == [c, d];
    assert [c, d][1..] == [d];
    assert [d][1..] == [];
    forall name
      ensures FormValue([a, b, c, d], name) ==
        (if a.0 == name then Some(a.1) else if b.0 == name then Some(b.1)
         else if c.0 == name then Some(c.1) else if d.0 == name then Some(d.1) else None)
    {
      assert FormValue([d], name) == if d.0 == name then Some(d.1) else None;
      assert FormValue([c, d], name) == if c.0 == name then Some(c.1) else FormValue([d], name);
      assert FormValue([b, c, d], name) == if b.0 == name then Some(b.1) else FormValue([c, d], name);
    }
  }

  // ---------------------------------------------------------------------------------------
  // int.TryParse(string) with NumberStyles.Integer: optional white space around an optional
  // sign and at least one decimal digit, in the 32-bit range.

  predicate IsNumberWhite(c: char) {
    ('\t' <= c <= '\r') || c == ' '
  }

  predicate IsDigit(c: char) {
    '0' <= c <= '9'
  }

  predicate AllDigits(s: string) {
    forall i :: 0 <= i < |s| ==> IsDigit(s[i])
  }

  function TrimStart(s: string): (r: string)
    ensures |r| <= |s|
    ensures r == [] || !IsNumberWhite(r[0])
  {
    if s != [] && IsNumberWhite(s[0]) then TrimStart(s[1..]) else s
  }

  function TrimEnd(s: string): (r: string)
    ensures |r| <= |s|
    ensures r == [] || !IsNumberWhite(r[|r| - 1])
  {
    if s != [] && IsNumberWhite(s[|s| - 1]) then TrimEnd(s[..|s| - 1]) else s
  }

  /** The value of a string of decimal digits, most significant first. */
  function DigitsValue(ds: string): nat
    requires AllDigits(ds)
  {
    if ds == [] then 0 else DigitsValue(ds[..|ds| - 1]) * 10 + (ds[|ds| - 1] as int - '0' as int)
  }

  /** A sign and a magnitude as a 32-bit integer: None when out of range. */
  function SignedInt32(negative: bool, magnitude: nat): (r: Option<int>)
    ensures r.Some? <==> IsInt32(if negative then -(magnitude as int) else magnitude)
    ensures r.Some? ==> r.value == if negative then -(magnitude as int) else magnitude
  {
    var v: int := if negative then -(magnitude as int) else magnitude;
    if IsInt32(v) then Some(v) else None
  }

  /** The parse of the trimmed text: an optional sign, then at least one digit and nothing else. */
  function ParseTrimmed(t: string): (r: Option<int>)
    ensures r.Some? ==> IsInt32(r.value)
  {
    var neg := |t| > 0 && t[0] == '-';
    var ds := if |t| > 0 && (t[0] == '-' || t[0] == '+') then t[1..] else t;
    if ds == [] || !AllDigits(ds) then None else SignedInt32(neg, DigitsValue(ds))
  }

  function ParseInt32(s: Option<string>): (r: Option<int>)
    ensures r.Some? ==> IsInt32(r.value)
    ensures s.None? || s == Some("") ==> r.None?
  {
    if s.None? then None else ParseTrimmed(TrimEnd(TrimStart(s.value)))
  }

  // ---------------------------------------------------------------------------------------
  // Decimal formatting, the independent partner of ParseInt32.

  function DigitChar(d: int): char
    requires 0 <= d < 10
  {
    ('0' as int + d) as char
  }

  function NatToDigits(n: nat): (r: string)
    ensures |r| > 0 && AllDigits(r)
  {
    if n < 10 then [DigitChar(n)] else NatToDigits(n / 10) + [DigitChar(n % 10)]
  }

  /** Int32.ToString() in the invariant culture. */
  function FormatInt(n: int): string {
    if n < 0 then "-" + NatToDigits(-n as nat) else NatToDigits(n)
  }

  lemma {:induction false} DigitsValueOfNatToDigits(n: nat)
    ensures DigitsValue(NatToDigits(n)) == n
  {
    if n >= 10 {
      var ds := NatToDigits(n);
      assert ds[..|ds| - 1] == NatToDigits(n / 10);
      DigitsValueOfNatToDigits(n / 10);
    }
  }

  lemma TrimKeepsUnpadded(s: string)
    requires s != [] && !IsNumberWhite(s[0]) && !IsNumberWhite(s[|s| - 1])
    ensures TrimEnd(TrimStart(s)) == s
  {
  }

  /** An unpadded run of digits, with or without a leading minus sign, parses to its value. */
  lemma ParseSignedDigits(negative: bool, ds: string)
    requires ds != [] && AllDigits(ds)
    ensures ParseInt32(Some(if negative then "-" + ds else ds)) == SignedInt32(negative, DigitsValue(ds))
  {
    var s := if negative then "-" + ds else ds;
    assert s[|s| - 1] == ds[|ds| - 1];
    assert IsDigit(ds[0]);
    TrimKeepsUnpadded(s);
    if negative {
      assert s[0] == '-' && s[1..] == ds;
    } else {
      assert s[0] != '-' && s[0] != '+';
    }
  }

  /** int.TryParse reads back every 32-bit integer that Int32.ToString writes. */
  lemma ParseFormatRoundTrip(n: int)
    requires IsInt32(n)
    ensures ParseInt32(Some(FormatInt(n))) == Some(n)
  {
    if n < 0 {
      DigitsValueOfNatToDigits(-n);
      ParseSignedDigits(true, NatToDigits(-n));
    } else {
      DigitsValueOfNatToDigits(n);
      ParseSignedDigits(false, NatToDigits(n));
    }
  }

  /** The text holds no decimal digit. */
  predicate NoDigits(s: string) {
    forall i :: 0 <= i < |s| ==> !IsDigit(s[i])
  }

  /** Trimming only removes characters, so it cannot bring a digit in. */
  lemma {:induction false} TrimStartKeepsNoDigits(s: string)
    requires NoDigits(s)
    ensures NoDigits(TrimStart(s))
  {
    if s != [] && IsNumberWhite(s[0]) {
      var rest := s[1..];
      assert NoDigits(rest) by {
        forall i | 0 <= i < |rest| ensures !IsDigit(rest[i]) {
          assert rest[i] == s[i + 1];
        }
      }
      TrimStartKeepsNoDigits(rest);
    }
  }

  lemma {:induction false} TrimEndKeepsNoDigits(s: string)
    requires NoDigits(s)
    ensures NoDigits(TrimEnd(s))
  {
    if s != [] && IsNumberWhite(s[|s| - 1]) {
      var front := s[..|s| - 1];
      assert NoDigits(front) by {
        forall i | 0 <= i < |front| ensures !IsDigit(front[i]) {
          assert front[i] == s[i];
        }
      }
      TrimEndKeepsNoDigits(front);
    }
  }

  /** int.TryParse accepts nothing that is not, after trimming and an optional sign, a run of
      digits. */
  lemma ParseRejectsNonDigits(s: string)
    requires NoDigits(s)
    ensures ParseInt32(Some(s)) == None
  {
    TrimStartKeepsNoDigits(s);
    var t := TrimEnd(TrimStart(s));
    TrimEndKeepsNoDigits(TrimStart(s));
    var off := if |t| > 0 && (t[0] == '-' || t[0] == '+') then 1 else 0;
    var ds := t[off..];
    if ds != [] {
      assert ds[0] == t[off];
      assert !AllDigits(ds);
    }
  }
}

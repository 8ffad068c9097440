/** Shared vocabulary of the model: nullable values, results with the .NET exception kinds the
    core throws, the string primitives it relies on (IsNullOrWhiteSpace, ToLowerInvariant,
    Replace) and the abstract clock. */
module Common {

  /** A nullable value: `None` stands for C#'s `null`. */
  datatype Option<+T> = None | Some(value: T)

  /** The outcome of an operation that may throw. */
  datatype Result<+T, +E> = Ok(value: T) | Err(error: E)

  /** The exceptions the core throws, by kind. */
  datatype Error =
    | ArgumentNull(param: string)      // ArgumentNullException
    | Argument(message: string)        // ArgumentException
    | NullReference                    // NullReferenceException (a member access on null)
    | Failure(message: string)         // System.Exception thrown with a message
    | InvalidOperation                 // a JsonElement accessor used on the wrong value kind
    | KeyNotFound                      // JsonElement.GetProperty on a missing property
    | MalformedJson                    // the body is not a JSON object
    | UriFormat(message: string)       // the Uri constructor rejected its argument
    | FormatError                      // DateTime.Parse rejected its argument

  /** The message .NET gives a NullReferenceException. */
  const NullReferenceMessage := "Object reference not set to an instance of an object."

  /** Exception.Message of each kind; the kinds whose text the core never reads get a fixed one. */
  function Message(e: Error): string {
    match e
    case ArgumentNull(param) => "Value cannot be null. (Parameter '" + param + "')"
    case Argument(message) => message
    case NullReference => NullReferenceMessage
    case Failure(message) => message
    case InvalidOperation => "The requested operation requires an element of a different type."
    case KeyNotFound => "The given key was not present in the dictionary."
    case MalformedJson => "The input does not contain any JSON tokens."
    case UriFormat(message) => message
    case FormatError => "String was not recognized as a valid DateTime."
  }

  // ---------------------------------------------------------------------------------------
  // HealthCheckResult: a status and an optional description. The default value (a field that
  // was never assigned) is Unhealthy with no description.

  datatype HealthStatus = Unhealthy | Degraded | Healthy

  datatype HealthCheckResult = HealthCheckResult(status: HealthStatus, description: Option<string>)

  const DefaultHealth := HealthCheckResult(Unhealthy, None)

  // ---------------------------------------------------------------------------------------
  // Clock: one abstract integer clock counted in .NET ticks (100 ns).

  const TicksPerSecond: int := 10_000_000
  const TicksPerMinute: int := 60 * TicksPerSecond

  /** DateTime.AddSeconds with a whole number of seconds. */
  function AddSeconds(t: int, seconds: int): int {
    t + seconds * TicksPerSecond
  }

  // ---------------------------------------------------------------------------------------
  // 32-bit integers.

  const Int32Min: int := -0x8000_0000
  const Int32Max: int := 0x7FFF_FFFF

  predicate IsInt32(n: int) {
    Int32Min <= n <= Int32Max
  }

  /** Unchecked C# `int` arithmetic: the mathematical result wrapped into 32 bits. */
  function Wrap32(n: int): (r: int)
    ensures IsInt32(r)
    ensures IsInt32(n) ==> r == n
    ensures (r - n) % 0x1_0000_0000 == 0
  {
    (n - Int32Min) % 0x1_0000_0000 + Int32Min
  }

  // ---------------------------------------------------------------------------------------
  // string.IsNullOrWhiteSpace and string.IsNullOrEmpty.

  /** System.Char.IsWhiteSpace: the Unicode separators plus U+0009..U+000D and U+0085. */
  predicate IsWhiteSpace(c: char) {
    || ('\t' <= c <= '\r')
    || c == ' '
    || c == '\U{0085}'
    || c == '\U{00A0}'
    || c == '\U{1680}'
    || ('\U{2000}' <= c <= '\U{200A}')
    || c == '\U{2028}'
    || c == '\U{2029}'
    || c == '\U{202F}'
    || c == '\U{205F}'
    || c == '\U{3000}'
  }

  predicate IsNullOrWhiteSpace(s: Option<string>) {
    s.None? || forall i :: 0 <= i < |s.value| ==> IsWhiteSpace(s.value[i])
  }

  predicate IsNullOrEmpty(s: Option<string>) {
    s.None? || s.value == ""
  }

  /** A nullable string where null reads as the empty string: an interpolation hole, or the
      replacement argument of string.Replace. */
  function Hole(s: Option<string>): string {
    if s.Some? then s.value else ""
  }

  /** A string that is present and not blank carries at least one character that is not white space. */
  lemma NotBlankHasVisibleChar(s: Option<string>)
    requires !IsNullOrWhiteSpace(s)
    ensures s.Some? && |s.value| > 0
    ensures exists i :: 0 <= i < |s.value| && !IsWhiteSpace(s.value[i])
  {
  }

  // ---------------------------------------------------------------------------------------
  // string.ToLowerInvariant, on ASCII letters.

  function LowerChar(c: char): char {
    if 'A' <= c <= 'Z' then (c as int + 32) as char else c
  }

  function ToLowerInvariant(s: string): (r: string)
    ensures |r| == |s|
    ensures forall i :: 0 <= i < |s| ==> r[i] == LowerChar(s[i])
  {
    if s == [] then [] else [LowerChar(s[0])] + ToLowerInvariant(s[1..])
  }

  /** Lower-casing is idempotent: a stored, lower-cased alias is its own lookup key. */
  lemma ToLowerIdempotent(s: string)
    ensures ToLowerInvariant(ToLowerInvariant(s)) == ToLowerInvariant(s)
  {
  }

  /** Lower-casing maps no non-blank string to a blank one. */
  lemma ToLowerKeepsNonBlank(s: string)
    requires !IsNullOrWhiteSpace(Some(s))
    ensures !IsNullOrWhiteSpace(Some(ToLowerInvariant(s)))
  {
    NotBlankHasVisibleChar(Some(s));
    var i :| 0 <= i < |s| && !IsWhiteSpace(s[i]);
    assert ToLowerInvariant(s)[i] == LowerChar(s[i]);
  }

  /** Two strings differing only in the case of ASCII letters. */
  ghost predicate CaseVariants(a: string, b: string) {
    |a| == |b| && forall i :: 0 <= i < |a| ==> LowerChar(a[i]) == LowerChar(b[i])
  }

  /** Case variants and only case variants have the same lower-cased form. */
  lemma ToLowerEqualIffCaseVariants(a: string, b: string)
    ensures ToLowerInvariant(a) == ToLowerInvariant(b) <==> CaseVariants(a, b)
  {
    if CaseVariants(a, b) {
      assert forall i :: 0 <= i < |a| ==> ToLowerInvariant(a)[i] == ToLowerInvariant(b)[i];
    }
    if ToLowerInvariant(a) == ToLowerInvariant(b) {
      assert forall i :: 0 <= i < |a| ==> LowerChar(a[i]) == ToLowerInvariant(b)[i];
    }
  }

  // ---------------------------------------------------------------------------------------
  // string.Replace(string, string): left to right, non-overlapping occurrences.

  /** `pat` occurs in `s` at position `i`. */
  predicate OccursAt(s: string, pat: string, i: int) {
    0 <= i && i + |pat| <= |s| && s[i..i + |pat|] == pat
  }

  function Replace(s: string, pat: string, rep: string): string
    requires |pat| > 0
    decreases |s|
  {
    if |s| < |pat| then s
    else if s[..|pat|] == pat then rep + Replace(s[|pat|..], pat, rep)
    else [s[0]] + Replace(s[1..], pat, rep)
  }

  /** Replacing a pattern that does not occur leaves the string as it is. */
  lemma {:induction false} ReplaceAbsent(s: string, pat: string, rep: string)
    requires |pat| > 0
    requires forall i :: !OccursAt(s, pat, i)
    ensures Replace(s, pat, rep) == s
    decreases |s|
  {
    if |s| >= |pat| {
      assert !OccursAt(s, pat, 0);
      assert s[..|pat|] != pat;
      forall i ensures !OccursAt(s[1..], pat, i) {
        if OccursAt(s[1..], pat, i) {
          assert s[1..][i..i + |pat|] == s[i + 1..i + 1 + |pat|];
          assert OccursAt(s, pat, i + 1);
        }
      }
      ReplaceAbsent(s[1..], pat, rep);
    }
  }

  /** A prefix that cannot start the pattern is kept, and the occurrence right after it is
      replaced: Replace(a + pat + b) == a + rep + Replace(b). */
  lemma {:induction false} ReplaceAfterPrefix(a: string, pat: string, rep: string, b: string)
    requires |pat| > 0
    requires forall i :: 0 <= i < |a| ==> a[i] != pat[0]
    ensures Replace(a + pat + b, pat, rep) == a + rep + Replace(b, pat, rep)
    decreases |a|
  {
    var s := a + pat + b;
    assert |s| >= |pat|;
    if a == [] {
      assert s == pat + b;
      assert s[..|pat|] == pat;
      assert s[|pat|..] == b;
    } else {
      assert s[0] == a[0];
      assert s[..|pat|] != pat by { assert s[..|pat|][0] == a[0]; }
      var t := a[1..] + pat + b;
      assert s[1..] == t;
      forall i | 0 <= i < |a[1..]| ensures a[1..][i] != pat[0] {
        assert a[1..][i] == a[i + 1];
      }
      ReplaceAfterPrefix(a[1..], pat, rep, b);
      calc {
        Replace(s, pat, rep);
        [s[0]] + Replace(s[1..], pat, rep);
        [a[0]] + Replace(t, pat, rep);
        [a[0]] + (a[1..] + rep + Replace(b, pat, rep));
        { assert [a[0]] + a[1..] == a; }
        a + rep + Replace(b, pat, rep);
      }
    }
  }
}

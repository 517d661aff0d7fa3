/** Shared vocabulary of the API: optional values, the error envelope's
    status codes, and the string normalisation the schemas and handlers use. */
module Common {

  datatype Option<+T> = None | Some(value: T)

  /** The statuses an `ApiError` (or an unexpected exception) surfaces with. */
  datatype Status = BadRequest | Unauthorized | Forbidden | NotFound | Conflict | Internal

  /** The HTTP code the error envelope carries for each status. */
  function Code(s: Status): (code: nat)
    ensures 400 <= code < 600
    ensures s == Internal <==> code == 500
  {
    match s
    case BadRequest => 400
    case Unauthorized => 401
    case Forbidden => 403
    case NotFound => 404
    case Conflict => 409
    case Internal => 500
  }

  /** Outcome of a handler: a value, or the status its ApiError is thrown with. */
  datatype Result<+T> = Ok(value: T) | Err(status: Status)

  /** JavaScript white space and line terminators, the characters `String.prototype.trim` removes. */
  predicate IsSpace(c: char)
  {
    || c == ' ' || c == '\t' || c == '\n' || c == '\r'
    || c == '\U{000B}' || c == '\U{000C}' || c == '\U{00A0}' || c == '\U{FEFF}'
    || c == '\U{1680}' || ('\U{2000}' <= c <= '\U{200A}')
    || c == '\U{2028}' || c == '\U{2029}' || c == '\U{202F}' || c == '\U{205F}' || c == '\U{3000}'
  }

  function TrimStart(s: string): (r: string)
    ensures |r| <= |s| && r == s[|s| - |r|..]
    ensures r != [] ==> !IsSpace(r[0])
    ensures forall i :: 0 <= i < |s| - |r| ==> IsSpace(s[i])
  {
    if s != [] && IsSpace(s[0]) then TrimStart(s[1..]) else s
  }

  function TrimEnd(s: string): (r: string)
    ensures |r| <= |s| && r == s[..|r|]
    ensures r != [] ==> !IsSpace(r[|r| - 1])
    ensures forall i :: |r| <= i < |s| ==> IsSpace(s[i])
  {
    if s != [] && IsSpace(s[|s| - 1]) then TrimEnd(s[..|s| - 1]) else s
  }

  /** `s.trim()`: the longest infix of `s` that neither starts nor ends with white space. */
  function Trim(s: string): (r: string)
  {
    TrimEnd(TrimStart(s))
  }

  /** Trimming keeps an infix of the input, and leaves white space at neither end. */
  lemma TrimIsInfix(s: string) returns (k: nat)
    ensures k + |Trim(s)| <= |s| && Trim(s) == s[k..k + |Trim(s)|]
    ensures Trim(s) != [] ==> !IsSpace(Trim(s)[0]) && !IsSpace(Trim(s)[|Trim(s)| - 1])
  {
    var a := TrimStart(s);
    k := |s| - |a|;
  }

  /** JavaScript truthiness of an optional string body field. */
  predicate Truthy(o: Option<string>)
  {
    o.Some? && o.value != ""
  }

  /** `!s?.trim()`: the field is missing or holds only white space. */
  predicate Blank(o: Option<string>)
  {
    o.None? || Trim(o.value) == ""
  }

  /** A string is blank exactly when every one of its characters is white space. */
  lemma BlankIffAllSpace(s: string)
    ensures Blank(Some(s)) <==> forall i :: 0 <= i < |s| ==> IsSpace(s[i])
  {
  }

  /** The lowercase setter and `toLowerCase`, for the ASCII letters. */
  function ToLowerChar(c: char): (r: char)
  {
    if 'A' <= c <= 'Z' then (c as int - 'A' as int + 'a' as int) as char else c
  }

  function ToLower(s: string): (r: string)
    ensures |r| == |s|
    ensures forall i :: 0 <= i < |s| ==> r[i] == ToLowerChar(s[i])
  {
    seq(|s|, i requires 0 <= i < |s| => ToLowerChar(s[i]))
  }

  /** What a `lowercase: true, trim: true` schema path stores for the string `s`,
      and what Mongoose casts a query value for that path to. */
  function Normalize(s: string): (r: string)
  {
    Trim(ToLower(s))
  }

  /** A value stored through a normalising path normalises to itself, so presenting
      the stored username or email again finds the same record. */
  lemma NormalizeIdempotent(s: string)
    ensures Normalize(Normalize(s)) == Normalize(s)
  {
    var lower := ToLower(s);
    var n := Trim(lower);
    LoweredIsLower(s);
    TrimKeepsLower(lower);
    LowerIsFixed(n);
    TrimOfTrimmed(n, lower);
  }

  /** Every character of `t` is its own lowercase. */
  ghost predicate AllLower(t: string)
  {
    forall i :: 0 <= i < |t| ==> ToLowerChar(t[i]) == t[i]
  }

  lemma LoweredIsLower(s: string)
    ensures AllLower(ToLower(s))
  {
    forall i | 0 <= i < |s|
      ensures ToLowerChar(ToLower(s)[i]) == ToLower(s)[i]
    {
      LowerCharIsFixed(s[i]);
    }
  }

  lemma LowerCharIsFixed(c: char)
    ensures ToLowerChar(ToLowerChar(c)) == ToLowerChar(c)
  {
  }

  lemma SliceKeepsLower(t: string, lo: nat, hi: nat)
    requires AllLower(t) && lo <= hi <= |t|
    ensures AllLower(t[lo..hi])
  {
    forall i | 0 <= i < hi - lo
      ensures ToLowerChar(t[lo..hi][i]) == t[lo..hi][i]
    {
      assert t[lo..hi][i] == t[lo + i];
    }
  }

  lemma TrimKeepsLower(t: string)
    requires AllLower(t)
    ensures AllLower(Trim(t))
  {
    var a := TrimStart(t);
    SliceKeepsLower(t, |t| - |a|, |t|);
    assert a == t[|t| - |a|..|t|];
    SliceKeepsLower(a, 0, |TrimEnd(a)|);
    assert TrimEnd(a) == a[0..|TrimEnd(a)|];
  }

  lemma LowerIsFixed(t: string)
    requires AllLower(t)
    ensures ToLower(t) == t
  {
  }

  /** Trimming an already trimmed string changes nothing. */
  lemma TrimOfTrimmed(n: string, s: string)
    requires n == Trim(s)
    ensures Trim(n) == n
  {
    if n != [] {
      assert TrimStart(n) == n;
      assert TrimEnd(n) == n;
    }
  }
}

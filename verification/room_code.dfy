/** Room-code handling of the `joinRoom` and `validateRoom` handlers: a code
    is upper-cased, then trimmed, and accepted only when its `length` (in
    UTF-16 code units) is exactly six. */
module RoomCodes {
  import opened Optional

  /** Code used by `joinRoom` when the client sends none (or an empty one). */
  const DefaultRoomId: string := "room1"
  const RoomCodeLength: nat := 6

  predicate IsLowerAscii(c: char) {
    'a' <= c <= 'z'
  }

  /** Upper-casing of one character (ASCII letters only). */
  function UpperChar(c: char): (u: char)
    ensures !IsLowerAscii(u)
    ensures !IsLowerAscii(c) ==> u == c
  {
    if IsLowerAscii(c) then (c as int - 32) as char else c
  }

  /** `String.prototype.toUpperCase`, restricted to ASCII letters. */
  function ToUpper(s: string): (r: string)
    ensures |r| == |s|
    ensures forall i :: 0 <= i < |r| ==> r[i] == UpperChar(s[i])
  {
    seq(|s|, i requires 0 <= i < |s| => UpperChar(s[i]))
  }

  predicate NoLowerAscii(s: string) {
    forall i :: 0 <= i < |s| ==> !IsLowerAscii(s[i])
  }

  /** The characters `String.prototype.trim` removes: the ECMAScript
      WhiteSpace and LineTerminator code points. */
  predicate IsWhitespace(c: char) {
    var n := c as int;
    || n == 0x09 || n == 0x0A || n == 0x0B || n == 0x0C || n == 0x0D
    || n == 0x20 || n == 0xA0 || n == 0x1680
    || (0x2000 <= n <= 0x200A)
    || n == 0x2028 || n == 0x2029 || n == 0x202F || n == 0x205F
    || n == 0x3000 || n == 0xFEFF
  }

  predicate AllWhitespace(s: string) {
    forall i :: 0 <= i < |s| ==> IsWhitespace(s[i])
  }

  /** Number of whitespace characters `s` starts with. */
  function LeadingSpace(s: string): (n: nat)
    ensures n <= |s|
    ensures AllWhitespace(s[..n])
    ensures n == |s| || !IsWhitespace(s[n])
  {
    if |s| > 0 && IsWhitespace(s[0]) then
      var n := 1 + LeadingSpace(s[1..]);
      assert forall i :: 1 <= i < n ==> s[..n][i] == s[1..][..n - 1][i - 1];
      n
    else 0
  }

  lemma AllWhitespaceAppend(a: string, c: char)
    requires AllWhitespace(a) && IsWhitespace(c)
    ensures AllWhitespace(a + [c])
  {
    assert forall i :: 0 <= i < |a| ==> (a + [c])[i] == a[i];
  }

  /** Number of whitespace characters `s` ends with. */
  function TrailingSpace(s: string): (n: nat)
    ensures n <= |s|
    ensures AllWhitespace(s[|s| - n..])
    ensures n == |s| || !IsWhitespace(s[|s| - 1 - n])
  {
    if |s| > 0 && IsWhitespace(s[|s| - 1]) then
      var t := s[..|s| - 1];
      var m := TrailingSpace(t);
      assert s[|s| - (m + 1)..] == t[|t| - m..] + [s[|s| - 1]];
      AllWhitespaceAppend(t[|t| - m..], s[|s| - 1]);
      assert m + 1 < |s| ==> s[|s| - 1 - (m + 1)] == t[|t| - 1 - m];
      m + 1
    else 0
  }

  /** `String.prototype.trim`: the result neither starts nor ends with
      whitespace (see `TrimStripsPadding` for what was removed). */
  function Trim(s: string): (r: string)
    ensures |r| <= |s|
    ensures r == [] || (!IsWhitespace(r[0]) && !IsWhitespace(r[|r| - 1]))
  {
    var t := s[LeadingSpace(s)..];
    t[..|t| - TrailingSpace(t)]
  }

  /** `s` is the trimmed string with whitespace-only padding on both sides. */
  lemma TrimStripsPadding(s: string) returns (i: nat, j: nat)
    ensures i <= j <= |s|
    ensures Trim(s) == s[i..j]
    ensures AllWhitespace(s[..i]) && AllWhitespace(s[j..])
  {
    i := LeadingSpace(s);
    var t := s[i..];
    var n := TrailingSpace(t);
    j := |s| - n;
    SliceOfSuffix(s, i, |t| - n);
    SliceOfSuffix(s, i, |t|);
    assert t[|t| - n..] == s[j..] by {
      assert t[|t| - n..] == s[i..][|t| - n..];
    }
  }

  /** A slice of a suffix is a slice of the whole string. */
  lemma SliceOfSuffix(s: string, i: nat, m: nat)
    requires i + m <= |s|
    ensures s[i..][..m] == s[i..i + m]
    ensures s[i..][m..] == s[i + m..]
  {
  }

  /** Trimming a string that neither starts nor ends with whitespace
      changes nothing. */
  lemma TrimIdentity(s: string)
    requires s == [] || (!IsWhitespace(s[0]) && !IsWhitespace(s[|s| - 1]))
    ensures Trim(s) == s
  {
    assert LeadingSpace(s) == 0;
    assert s[0..] == s;
    assert TrailingSpace(s) == 0;
  }

  /** UTF-16 code units of one character: a character outside the Basic
      Multilingual Plane is a surrogate pair. */
  function Utf16Units(c: char): (n: nat)
    ensures 1 <= n <= 2
    ensures n == 2 <==> c as int >= 0x10000
  {
    if c as int >= 0x10000 then 2 else 1
  }

  /** `String.prototype.length`: the number of UTF-16 code units. */
  function Utf16Length(s: string): (n: nat)
    ensures |s| <= n <= 2 * |s|
  {
    if s == [] then 0 else Utf16Units(s[0]) + Utf16Length(s[1..])
  }

  /** Outside the supplementary planes the length is the character count. */
  lemma {:induction false} Utf16LengthBmp(s: string)
    requires forall i :: 0 <= i < |s| ==> s[i] as int < 0x10000
    ensures Utf16Length(s) == |s|
  {
    if s != [] {
      assert forall i :: 0 <= i < |s[1..]| ==> s[1..][i] == s[i + 1];
      Utf16LengthBmp(s[1..]);
    }
  }

  /** The normalisation both handlers apply: upper-case, then trim. */
  function Normalize(s: string): string {
    Trim(ToUpper(s))
  }

  /** Normalising twice changes nothing: stored codes are fixpoints. */
  lemma NormalizeIdempotent(s: string)
    ensures Normalize(Normalize(s)) == Normalize(s)
  {
    var u := ToUpper(s);
    var n := Trim(u);
    var i, j := TrimStripsPadding(u);
    forall k | 0 <= k < |n| ensures !IsLowerAscii(n[k]) {
      assert n[k] == u[i + k];
    }
    assert ToUpper(n) == n;
    TrimIdentity(n);
  }

  /** A code the client actually sent that normalises to six characters. */
  predicate Accepted(roomId: Option<string>) {
    roomId.Some? && roomId.value != [] && Utf16Length(Normalize(roomId.value)) == RoomCodeLength
  }

  /** The room code `joinRoom` uses, or None when it answers
      `roomError` (the code does not normalise to six characters). A
      missing or empty code falls back to `DefaultRoomId`. */
  function JoinCode(roomId: Option<string>): (r: Option<string>)
    ensures r.Some? ==> Utf16Length(r.value) == RoomCodeLength && Normalize(r.value) == r.value
    ensures Accepted(roomId) ==> r == Some(Normalize(roomId.value))
    ensures !Accepted(roomId) ==> r == None
  {
    var raw := OrElse(roomId, DefaultRoomId);
    var code := Normalize(raw);
    if Utf16Length(code) == RoomCodeLength then
      assert roomId.Some? && roomId.value != [] by {
        DefaultRejected();
      }
      NormalizeIdempotent(raw);
      Some(code)
    else
      None
  }

  /** The code `validateRoom` looks up, or None when it answers
      "Invalid room code format". */
  function ValidateCode(roomId: Option<string>): (r: Option<string>)
    ensures Accepted(roomId) ==> r == Some(Normalize(roomId.value))
    ensures !Accepted(roomId) ==> r == None
  {
    if roomId.None? || roomId.value == [] then None
    else
      var code := Normalize(roomId.value);
      if code == [] || Utf16Length(code) != RoomCodeLength then None else Some(code)
  }

  /** The fallback code is five characters long, so a join without a code
      is always refused. */
  lemma DefaultRejected()
    ensures Utf16Length(Normalize(DefaultRoomId)) != RoomCodeLength
  {
    var u := ToUpper(DefaultRoomId);
    assert u[0] == UpperChar('r') == 'R';
    assert u[4] == UpperChar('1') == '1';
    TrimIdentity(u);
    Utf16LengthBmp(u);
  }

  /** A code with no lower-case letter and no padding is its own
      normalisation. */
  lemma NormalizeFixed(s: string)
    requires NoLowerAscii(s)
    requires s == [] || (!IsWhitespace(s[0]) && !IsWhitespace(s[|s| - 1]))
    ensures Normalize(s) == s
  {
    assert ToUpper(s) == s;
    TrimIdentity(s);
  }

  /** `length` counts a surrogate pair twice: five characters, one of them
      an emoji, make a six-unit code ... */
  lemma SurrogatePairAccepted()
    ensures Accepted(Some("AB\U{1F600}CD"))
  {
    var a := "AB\U{1F600}CD";
    NormalizeFixed(a);
    assert Utf16Length(a[4..]) == 1;
    assert Utf16Length(a[2..]) == 4;
  }

  /** ... while six characters with one emoji are too long. */
  lemma SurrogatePairTooLong()
    ensures !Accepted(Some("ABC\U{1F600}DE"))
  {
    var b := "ABC\U{1F600}DE";
    NormalizeFixed(b);
    assert Utf16Length(b[5..]) == 1;
    assert Utf16Length(b[3..]) == 4;
  }

  /** Both handlers accept and normalise exactly the same codes. */
  lemma JoinAndValidateAgree(roomId: Option<string>)
    ensures JoinCode(roomId) == ValidateCode(roomId)
  {
  }
}

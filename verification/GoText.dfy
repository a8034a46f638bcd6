/** Byte strings as Go sees them: a string is a sequence of bytes, each carried by one char.
    Functions of the Go library whose answer on non-ASCII text depends on Unicode tables take
    that part of their answer from a Platform, which is left arbitrary everywhere. */
module GoText {

  datatype Option<+T> = None | Some(value: T) {
    function GetOr(default: T): T {
      if Some? then value else default
    }
  }

  datatype Result<+T> = Ok(value: T) | Err(error: string)

  /** What the Go runtime decides and this model does not: the Unicode half of
      strings.TrimSpace, strings.ToLower and utf8.ValidString, and which well-formed
      candidates net.ParseIP accepts. */
  datatype Platform = Platform(
    trimUnicode: string -> string,
    lowerUnicode: string -> string,
    validUnicode: string -> bool,
    acceptsIP: string -> bool)

  predicate IsAscii(s: string) {
    forall i :: 0 <= i < |s| ==> s[i] < 128 as char
  }

  predicate IsSpace(c: char) {
    c == ' ' || c == '\t' || c == '\n' || c == 11 as char || c == 12 as char || c == '\r'
  }

  function TrimLeft(s: string): (r: string)
    ensures |r| <= |s|
  {
    if s != "" && IsSpace(s[0]) then TrimLeft(s[1..]) else s
  }

  function TrimRight(s: string): (r: string)
    ensures |r| <= |s|
  {
    if s != "" && IsSpace(s[|s| - 1]) then TrimRight(s[..|s| - 1]) else s
  }

  function TrimSpace(p: Platform, s: string): string {
    if IsAscii(s) then TrimRight(TrimLeft(s)) else p.trimUnicode(s)
  }

  function LowerChar(c: char): char {
    if 'A' <= c <= 'Z' then c + 32 as char else c
  }

  function ToLower(p: Platform, s: string): string {
    if IsAscii(s) then seq(|s|, i requires 0 <= i < |s| => LowerChar(s[i])) else p.lowerUnicode(s)
  }

  predicate ValidUtf8(p: Platform, s: string) {
    IsAscii(s) || p.validUnicode(s)
  }

  predicate IsIPChar(c: char) {
    '0' <= c <= '9' || 'a' <= c <= 'f' || c == ':' || c == '.'
  }

  /** net.ParseIP on lower-case text: whatever it accepts is non-empty, uses only hex digits,
      colons and dots, and does not end in a dot. */
  predicate ParsesAsIP(p: Platform, s: string) {
    && s != ""
    && (forall i :: 0 <= i < |s| ==> IsIPChar(s[i]))
    && s[|s| - 1] != '.'
    && p.acceptsIP(s)
  }

  /** The part of s before its first c, or all of s. */
  function Before(s: string, c: char): (r: string)
    ensures |r| <= |s|
    ensures c !in r
    ensures c !in s ==> r == s
  {
    if s == "" || s[0] == c then "" else [s[0]] + Before(s[1..], c)
  }

  function TrimSuffix(s: string, suffix: char): string {
    if s != "" && s[|s| - 1] == suffix then s[..|s| - 1] else s
  }

  function TrimPrefix(s: string, prefix: char): string {
    if s != "" && s[0] == prefix then s[1..] else s
  }

  /** strings.Split with a one-byte separator. */
  function Split(s: string, sep: char): (parts: seq<string>)
    ensures |parts| >= 1
  {
    if s == "" then [""]
    else
      var rest := Split(s[1..], sep);
      if s[0] == sep then [""] + rest else [[s[0]] + rest[0]] + rest[1..]
  }

  /** strings.Join with a one-byte separator. */
  function Joined(parts: seq<string>, sep: char): string
    requires parts != []
  {
    if |parts| == 1 then parts[0] else parts[0] + [sep] + Joined(parts[1..], sep)
  }

  /** Joining the parts of a split gives the text back. */
  lemma {:induction false} JoinedSplit(s: string, sep: char)
    ensures Joined(Split(s, sep), sep) == s
  {
    if s != "" {
      var rest := Split(s[1..], sep);
      JoinedSplit(s[1..], sep);
      assert s == [s[0]] + s[1..];
      if s[0] == sep {
        assert Split(s, sep)[1..] == rest;
      } else if |rest| > 1 {
        assert Split(s, sep)[1..] == rest[1..];
      }
    }
  }

  lemma {:induction false} SplitSingle(s: string, sep: char)
    requires sep !in s
    ensures Split(s, sep) == [s]
  {
    if s != "" {
      SplitSingle(s[1..], sep);
      assert s == [s[0]] + s[1..];
    }
  }

  lemma {:induction false} SplitConcat(a: string, sep: char, b: string)
    requires sep !in a
    ensures Split(a + [sep] + b, sep) == [a] + Split(b, sep)
  {
    var whole := a + [sep] + b;
    if a == "" {
      assert whole[1..] == b;
    } else {
      assert whole[1..] == a[1..] + [sep] + b;
      SplitConcat(a[1..], sep, b);
      assert a == [a[0]] + a[1..];
      assert ([a[1..]] + Split(b, sep))[1..] == Split(b, sep);
    }
  }

  /** Parts of a split hold no separator, and only characters of the original. */
  lemma {:induction false} SplitParts(s: string, sep: char)
    ensures forall part :: part in Split(s, sep) ==> sep !in part && forall c :: c in part ==> c in s
  {
    if s != "" {
      SplitParts(s[1..], sep);
      var rest := Split(s[1..], sep);
      forall part | part in Split(s, sep)
        ensures sep !in part && forall c :: c in part ==> c in s
      {
        if s[0] == sep {
          assert part == "" || part in rest;
        } else {
          assert part == [s[0]] + rest[0] || part in rest;
          assert rest[0] in rest;
        }
      }
    }
  }

  /** Every character is the separator or lies in some part. */
  lemma {:induction false} SplitCovers(s: string, sep: char, c: char)
    requires c in s && c != sep
    ensures exists k :: 0 <= k < |Split(s, sep)| && c in Split(s, sep)[k]
  {
    var rest := Split(s[1..], sep);
    var parts := Split(s, sep);
    if s[0] == c {
      assert c in parts[0];
    } else {
      SplitCovers(s[1..], sep, c);
      var k :| 0 <= k < |rest| && c in rest[k];
      if s[0] == sep {
        assert parts[k + 1] == rest[k];
      } else if k == 0 {
        assert c in parts[0];
      } else {
        assert parts[k] == rest[k];
      }
    }
  }

  lemma {:induction false} TrimNoop(s: string)
    requires forall i :: 0 <= i < |s| ==> !IsSpace(s[i])
    ensures TrimLeft(s) == s && TrimRight(s) == s
  {
  }

  /** Text without spaces and upper case is a fixed point of TrimSpace and ToLower. */
  lemma PlainText(p: Platform, s: string)
    requires IsAscii(s)
    requires forall i :: 0 <= i < |s| ==> !IsSpace(s[i]) && !('A' <= s[i] <= 'Z')
    ensures TrimSpace(p, s) == s && ToLower(p, s) == s
  {
    TrimNoop(s);
    assert ToLower(p, s) == s;
  }

  /** The byte order Go uses to compare strings. */
  predicate Less(a: string, b: string) {
    if b == "" then false
    else if a == "" then true
    else if a[0] != b[0] then a[0] < b[0]
    else Less(a[1..], b[1..])
  }

  lemma {:induction false} LessTrichotomy(a: string, b: string)
    ensures a == b ==> !Less(a, b)
    ensures a != b ==> Less(a, b) != Less(b, a)
  {
    if a != "" && b != "" && a[0] == b[0] {
      LessTrichotomy(a[1..], b[1..]);
      assert a == [a[0]] + a[1..] && b == [b[0]] + b[1..];
    }
  }

  /** Byte order is decided at the first difference; a proper prefix comes first. */
  lemma {:induction false} LessIff(a: string, b: string)
    ensures Less(a, b) <==> exists k :: DiffersAt(a, b, k) && k < |b| && (k < |a| ==> a[k] < b[k])
  {
    if a == "" || b == "" || a[0] != b[0] {
      assert b != "" ==> (a == "" || a[0] != b[0] ==> DiffersAt(a, b, 0));
    } else {
      LessIff(a[1..], b[1..]);
      forall k ensures DiffersAt(a, b, k + 1) <==> DiffersAt(a[1..], b[1..], k) {
        DiffersLater(a, b, k);
      }
      if Less(a, b) {
        var k :| DiffersAt(a[1..], b[1..], k) && k < |b[1..]| && (k < |a[1..]| ==> a[1..][k] < b[1..][k]);
        assert DiffersAt(a, b, k + 1);
      }
      if k :| DiffersAt(a, b, k) && k < |b| && (k < |a| ==> a[k] < b[k]) {
        assert DiffersAt(a[1..], b[1..], k - 1);
      }
    }
  }

  predicate DiffersAt(a: string, b: string, k: int) {
    && 0 <= k <= |a| && k <= |b| && a[..k] == b[..k]
    && (k < |a| && k < |b| ==> a[k] != b[k])
  }

  lemma DiffersLater(a: string, b: string, k: int)
    requires a != "" && b != "" && a[0] == b[0]
    ensures k >= 0 ==> (DiffersAt(a, b, k + 1) <==> DiffersAt(a[1..], b[1..], k))
  {
    if 0 <= k < |a| && k < |b| {
      assert a[..k + 1] == [a[0]] + a[1..][..k] && b[..k + 1] == [b[0]] + b[1..][..k];
      assert a[..k + 1][1..] == a[1..][..k] && b[..k + 1][1..] == b[1..][..k];
    }
  }

  lemma {:induction false} LessTransitive(a: string, b: string, c: string)
    requires Less(a, b) && Less(b, c)
    ensures Less(a, c)
  {
    if a != "" && a[0] == b[0] && b[0] == c[0] {
      LessTransitive(a[1..], b[1..], c[1..]);
    }
  }

  lemma LessIsOrder()
    ensures forall a, b :: a != b ==> Less(a, b) != Less(b, a)
    ensures forall a :: !Less(a, a)
    ensures forall a, b, c :: Less(a, b) && Less(b, c) ==> Less(a, c)
  {
    forall a: string, b: string ensures a != b ==> Less(a, b) != Less(b, a) { LessTrichotomy(a, b); }
    forall a: string ensures !Less(a, a) { LessTrichotomy(a, a); }
    forall a: string, b: string, c: string | Less(a, b) && Less(b, c) ensures Less(a, c) { LessTransitive(a, b, c); }
  }
}

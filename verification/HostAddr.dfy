/** internal/hostaddr: the canonical form of a requested server address. */
module HostAddr {
  import opened GoText

  const MAX_HOST_BYTES := 253
  const MAX_LABEL_BYTES := 63

  predicate IsLabelChar(c: char) {
    'a' <= c <= 'z' || '0' <= c <= '9' || c == '-'
  }

  /** A DNS label, as section 2.3.4 of RFC 1035 and section 2.1 of RFC 1123 limit it. */
  predicate IsDNSLabel(value: string) {
    && 1 <= |value| <= 63
    && (forall i :: 0 <= i < |value| ==> IsLabelChar(value[i]))
    && value[0] != '-' && value[|value| - 1] != '-'
  }

  /** The first objection to a label, if any. */
  function LabelProblem(name: string): (problem: Option<string>)
    ensures problem.None? <==> IsDNSLabel(name)
  {
    if |name| == 0 then Some("empty label")
    else if |name| > MAX_LABEL_BYTES then Some("label length exceeds 63")
    else if name[0] == '-' || name[|name| - 1] == '-' then Some("label starts or ends with hyphen")
    else CharProblem(name)
  }

  function CharProblem(name: string): (problem: Option<string>)
    ensures problem.None? <==> forall i :: 0 <= i < |name| ==> IsLabelChar(name[i])
  {
    if name == "" then None
    else if !IsLabelChar(name[0]) then Some("unsupported character " + [name[0]])
    else CharProblem(name[1..])
  }

  /** The first objection to any of the labels, in order. */
  function LabelsProblem(labels: seq<string>): (problem: Option<string>)
    ensures problem.None? <==> forall i :: 0 <= i < |labels| ==> IsDNSLabel(labels[i])
  {
    if labels == [] then None
    else if LabelProblem(labels[0]).Some? then LabelProblem(labels[0])
    else LabelsProblem(labels[1..])
  }

  /** The text Normalize judges: cut at NUL, trimmed, lower-cased, one trailing dot dropped. */
  function Reduced(p: Platform, address: string): string {
    TrimSuffix(ToLower(p, TrimSpace(p, Before(address, 0 as char))), '.')
  }

  function Unbracketed(s: string): string {
    TrimPrefix(TrimSuffix(s, ']'), '[')
  }

  function Normalize(p: Platform, address: string): Result<string> {
    Judge(p, Reduced(p, address))
  }

  function Judge(p: Platform, normalized: string): Result<string> {
    if normalized == "" then Err("invalid server address: empty")
    else if |normalized| > MAX_HOST_BYTES then Err("invalid server address: length exceeds 253")
    else if !ValidUtf8(p, normalized) then Err("invalid server address: not valid utf-8")
    else if ParsesAsIP(p, Unbracketed(normalized)) then Ok(Unbracketed(normalized))
    else match LabelsProblem(Split(normalized, '.'))
      case Some(problem) => Err("invalid server address: " + problem)
      case None => Ok(normalized)
  }

  /** The byte-by-byte check of one label. */
  method ScanLabel(name: string) returns (problem: Option<string>)
    ensures problem == LabelProblem(name)
  {
    if |name| == 0 {
      return Some("empty label");
    }
    if |name| > MAX_LABEL_BYTES {
      return Some("label length exceeds 63");
    }
    if name[0] == '-' || name[|name| - 1] == '-' {
      return Some("label starts or ends with hyphen");
    }
    for i := 0 to |name|
      invariant CharProblem(name[i..]) == CharProblem(name)
    {
      assert name[i..][0] == name[i] && name[i..][1..] == name[i + 1..];
      if !IsLabelChar(name[i]) {
        return Some("unsupported character " + [name[i]]);
      }
    }
    return None;
  }

  /** The scan over labels that decides Normalize. */
  method ScanLabels(labels: seq<string>) returns (problem: Option<string>)
    ensures problem == LabelsProblem(labels)
  {
    for k := 0 to |labels|
      invariant LabelsProblem(labels[k..]) == LabelsProblem(labels)
    {
      assert labels[k..][0] == labels[k] && labels[k..][1..] == labels[k + 1..];
      problem := ScanLabel(labels[k]);
      if problem.Some? {
        return;
      }
    }
    return None;
  }

  /** The canonical addresses: an IP literal without brackets, or dot-separated DNS labels. */
  ghost predicate Canonical(p: Platform, host: string) {
    && 1 <= |host| <= 253
    && (ParsesAsIP(p, host) || forall part :: part in Split(host, '.') ==> IsDNSLabel(part))
  }

  lemma {:induction false} SplitTrailing(s: string, sep: char)
    requires s != "" && s[|s| - 1] == sep
    ensures Split(s, sep)[|Split(s, sep)| - 1] == ""
  {
    if |s| > 1 {
      SplitTrailing(s[1..], sep);
      var rest := Split(s[1..], sep);
      if s[0] != sep && |rest| == 1 {
        SplitCount(s[1..], sep);
      }
    } else {
      assert s[1..] == "";
    }
  }

  lemma {:induction false} SplitCount(s: string, sep: char)
    requires sep in s
    ensures |Split(s, sep)| >= 2
  {
    if s[0] != sep {
      SplitCount(s[1..], sep);
    }
  }

  lemma LabelChars(host: string, i: nat)
    requires i < |host|
    requires forall part :: part in Split(host, '.') ==> IsDNSLabel(part)
    ensures IsLabelChar(host[i]) || host[i] == '.'
  {
    if host[i] != '.' {
      assert host[i] in host;
      SplitCovers(host, '.', host[i]);
      var k :| 0 <= k < |Split(host, '.')| && host[i] in Split(host, '.')[k];
      var part := Split(host, '.')[k];
      assert IsDNSLabel(part);
      var j :| 0 <= j < |part| && part[j] == host[i];
    }
  }

  lemma CanonicalChars(p: Platform, host: string)
    requires Canonical(p, host)
    ensures forall i :: 0 <= i < |host| ==> IsLabelChar(host[i]) || IsIPChar(host[i])
    ensures host[|host| - 1] != '.'
  {
    if !ParsesAsIP(p, host) {
      forall i | 0 <= i < |host| ensures IsLabelChar(host[i]) || IsIPChar(host[i]) {
        LabelChars(host, i);
      }
      var parts := Split(host, '.');
      assert parts[|parts| - 1] in parts;
      if host[|host| - 1] == '.' {
        SplitTrailing(host, '.');
      }
    }
  }

  /** Canonical text is untouched by trimming, lower-casing and bracket removal. */
  lemma CanonicalIsPlain(p: Platform, host: string)
    requires Canonical(p, host)
    ensures forall i :: 0 <= i < |host| ==> IsLabelChar(host[i]) || IsIPChar(host[i])
    ensures Reduced(p, host) == host && Unbracketed(host) == host
  {
    CanonicalChars(p, host);
    assert 0 as char !in host;
    PlainText(p, host);
  }

  /** The fixed points of Normalize are exactly the canonical addresses. */
  lemma FixedPoints(p: Platform, host: string)
    ensures Normalize(p, host) == Ok(host) <==> Canonical(p, host)
  {
    if Canonical(p, host) {
      CanonicalIsPlain(p, host);
      assert IsAscii(host);
      assert forall i :: 0 <= i < |Split(host, '.')| ==> Split(host, '.')[i] in Split(host, '.');
    }
    if Normalize(p, host) == Ok(host) {
      OutputCanonical(p, host);
    }
  }

  /** Everything Normalize returns is canonical. */
  lemma OutputCanonical(p: Platform, address: string)
    requires Normalize(p, address).Ok?
    ensures Canonical(p, Normalize(p, address).value)
  {
    var host := Normalize(p, address).value;
    if !ParsesAsIP(p, host) {
      var parts := Split(host, '.');
      forall part | part in parts ensures IsDNSLabel(part) {
        var k :| 0 <= k < |parts| && parts[k] == part;
      }
    }
  }

  /** Normalising twice is normalising once. */
  lemma Idempotent(p: Platform, address: string)
    requires Normalize(p, address).Ok?
    ensures Normalize(p, Normalize(p, address).value) == Normalize(p, address)
  {
    OutputCanonical(p, address);
    FixedPoints(p, Normalize(p, address).value);
  }

  /** The text that is left to judge: up to the first NUL, trimmed and in lower case. */
  function Spelling(p: Platform, address: string): string {
    ToLower(p, TrimSpace(p, Before(address, 0 as char)))
  }

  function Wrapped(host: string, open: bool, close: bool, dot: bool): string {
    (if open then "[" else "") + host + (if close then "]" else "") + (if dot then "." else "")
  }

  /** The ways to spell a host: a trailing dot is allowed, and brackets around an IP literal. */
  ghost predicate Spells(p: Platform, text: string, host: string, open: bool, close: bool, dot: bool) {
    && text == Wrapped(host, open, close, dot)
    && |Wrapped(host, open, close, false)| <= 253
    && (open || close ==> ParsesAsIP(p, host))
  }

  /** Normalize accepts exactly the spellings of canonical hosts, and returns the host spelled. */
  lemma NormalizeIff(p: Platform, address: string, host: string)
    ensures Normalize(p, address) == Ok(host) <==>
      Canonical(p, host) && exists open, close, dot :: Spells(p, Spelling(p, address), host, open, close, dot)
  {
    var text := Spelling(p, address);
    if Normalize(p, address) == Ok(host) {
      OutputCanonical(p, address);
      Unwrap(p, address, host);
    }
    if Canonical(p, host) {
      if open, close, dot :| Spells(p, text, host, open, close, dot) {
        SpelledNormalizes(p, address, host, open, close, dot);
      }
    }
  }

  lemma Unwrap(p: Platform, address: string, host: string)
    requires Normalize(p, address) == Ok(host)
    ensures exists open, close, dot :: Spells(p, Spelling(p, address), host, open, close, dot)
  {
    var text := Spelling(p, address);
    assert Reduced(p, address) == TrimSuffix(text, '.');
    hide Spelling, Reduced;
    UnwrapText(p, text, host);
  }

  lemma UnwrapText(p: Platform, text: string, host: string)
    requires Judge(p, TrimSuffix(text, '.')) == Ok(host)
    ensures exists open, close, dot :: Spells(p, text, host, open, close, dot)
  {
    hide LabelsProblem, Split;
    var reduced := TrimSuffix(text, '.');
    var dot := text[|text| - 1] == '.';
    PutBackLast(text, '.');
    if ParsesAsIP(p, Unbracketed(reduced)) {
      var close := reduced[|reduced| - 1] == ']';
      var inner := TrimSuffix(reduced, ']');
      var open := inner[0] == '[';
      assert host == TrimPrefix(inner, '[');
      PutBackFirst(inner, '[');
      PutBackLast(reduced, ']');
      assert text == Wrapped(host, open, close, dot);
      assert reduced == Wrapped(host, open, close, false);
      assert Spells(p, text, host, open, close, dot);
    } else {
      assert Spells(p, text, host, false, false, dot);
    }
  }

  lemma SpelledNormalizes(p: Platform, address: string, host: string, open: bool, close: bool, dot: bool)
    requires Canonical(p, host) && Spells(p, Spelling(p, address), host, open, close, dot)
    ensures Normalize(p, address) == Ok(host)
  {
    CanonicalChars(p, host);
    Unwrapping(host, open, close, dot);
    var bare := Wrapped(host, open, close, false);
    assert Reduced(p, address) == bare;
    assert Judge(p, bare) == Ok(host) by {
      hide Reduced, Spelling;
      if open || close {
        JudgeWrapped(p, host, open, close);
      } else {
        assert bare == host;
        JudgeBare(p, host);
      }
    }
    hide Judge;
  }

  lemma JudgeBare(p: Platform, host: string)
    requires Canonical(p, host)
    ensures Judge(p, host) == Ok(host)
  {
    CanonicalIsPlain(p, host);
    FixedPoints(p, host);
    hide Judge, Canonical;
  }

  lemma JudgeWrapped(p: Platform, host: string, open: bool, close: bool)
    requires ParsesAsIP(p, host) && |Wrapped(host, open, close, false)| <= MAX_HOST_BYTES
    requires Unbracketed(Wrapped(host, open, close, false)) == host
    ensures Judge(p, Wrapped(host, open, close, false)) == Ok(host)
  {
    hide Split, LabelsProblem, Unbracketed;
    assert IsAscii(Wrapped(host, open, close, false));
  }

  lemma Unwrapping(host: string, open: bool, close: bool, dot: bool)
    requires host != "" && host[|host| - 1] != '.'
    requires forall i :: 0 <= i < |host| ==> IsLabelChar(host[i]) || IsIPChar(host[i])
    ensures TrimSuffix(Wrapped(host, open, close, dot), '.') == Wrapped(host, open, close, false)
    ensures Unbracketed(Wrapped(host, open, close, false)) == host
  {
    var front := if open then "[" + host else host;
    var bare := if close then front + "]" else front;
    assert front[|front| - 1] == host[|host| - 1] && host[|host| - 1] != ']' && host[0] != '[';
    CutLast(front, close, ']');
    CutLast(bare, dot, '.');
    assert open ==> front[1..] == host;
    assert Wrapped(host, open, close, false) == bare;
    assert Wrapped(host, open, close, dot) == if dot then bare + "." else bare;
  }

  lemma PutBackLast(s: string, c: char)
    requires s != ""
    ensures s == TrimSuffix(s, c) + if s[|s| - 1] == c then [c] else ""
  {
  }

  lemma PutBackFirst(s: string, c: char)
    requires s != ""
    ensures s == (if s[0] == c then [c] else "") + TrimPrefix(s, c)
  {
  }

  lemma CutLast(s: string, added: bool, c: char)
    requires s != "" && s[|s| - 1] != c
    ensures TrimSuffix(if added then s + [c] else s, c) == s
  {
  }

  /** Normalize, with its loop over labels. */
  method NormalizeAddress(p: Platform, address: string) returns (r: Result<string>)
    ensures r == Normalize(p, address)
  {
    var normalized := Reduced(p, address);
    if normalized == "" {
      return Err("invalid server address: empty");
    }
    if |normalized| > MAX_HOST_BYTES {
      return Err("invalid server address: length exceeds 253");
    }
    if !ValidUtf8(p, normalized) {
      return Err("invalid server address: not valid utf-8");
    }
    if ParsesAsIP(p, Unbracketed(normalized)) {
      return Ok(Unbracketed(normalized));
    }
    var problem := ScanLabels(Split(normalized, '.'));
    if problem.Some? {
      return Err("invalid server address: " + problem.value);
    }
    return Ok(normalized);
  }
}

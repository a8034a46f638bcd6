/** Host and port text: net.SplitHostPort, net.JoinHostPort, strconv.Atoi and strconv.Itoa. */
module HostPort {
  import opened GoText

  /** Index of the last c in s, or -1. */
  function LastIndex(s: string, c: char): (i: int)
    ensures -1 <= i < |s|
    ensures i >= 0 ==> s[i] == c && c !in s[i + 1..]
    ensures i < 0 ==> c !in s
  {
    if s == "" then -1
    else if s[|s| - 1] == c then |s| - 1
    else
      var i := LastIndex(s[..|s| - 1], c);
      assert s == s[..|s| - 1] + [s[|s| - 1]];
      assert i >= 0 ==> s[i + 1..] == s[..|s| - 1][i + 1..] + [s[|s| - 1]];
      i
  }

  lemma {:induction false} LastIndexAt(s: string, c: char, k: nat)
    requires k < |s| && s[k] == c && c !in s[k + 1..]
    ensures LastIndex(s, c) == k
  {
    if k < |s| - 1 {
      assert s[k + 1..][|s| - k - 2] == s[|s| - 1];
      var init := s[..|s| - 1];
      assert s[k + 1..] == init[k + 1..] + [s[|s| - 1]];
      LastIndexAt(init, c, k);
    }
  }

  function FirstIndex(s: string, c: char): (i: int)
    ensures -1 <= i < |s|
    ensures i >= 0 ==> s[i] == c && c !in s[..i]
    ensures i < 0 ==> c !in s
  {
    var b := Before(s, c);
    BeforeIsPrefix(s, c);
    if |b| == |s| then -1 else |b|
  }

  lemma {:induction false} BeforeIsPrefix(s: string, c: char)
    ensures Before(s, c) <= s
    ensures |Before(s, c)| < |s| ==> s[|Before(s, c)|] == c
    ensures |Before(s, c)| == |s| ==> c !in s
  {
    if s != "" && s[0] != c {
      BeforeIsPrefix(s[1..], c);
      assert s == [s[0]] + s[1..];
    }
  }

  function SplitHostPort(hostport: string): Result<(string, string)> {
    var i := LastIndex(hostport, ':');
    if i < 0 then Err("missing port in address")
    else if hostport[0] == '[' then
      var end := FirstIndex(hostport, ']');
      if end < 0 then Err("missing ']' in address")
      else if end + 1 == |hostport| then Err("missing port in address")
      else if end + 1 != i then
        Err(if hostport[end + 1] == ':' then "too many colons in address" else "missing port in address")
      else if '[' in hostport[1..] then Err("unexpected '[' in address")
      else if ']' in hostport[end + 1..] then Err("unexpected ']' in address")
      else Ok((hostport[1..end], hostport[i + 1..]))
    else if ':' in hostport[..i] then Err("too many colons in address")
    else if '[' in hostport then Err("unexpected '[' in address")
    else if ']' in hostport then Err("unexpected ']' in address")
    else Ok((hostport[..i], hostport[i + 1..]))
  }

  function JoinHostPort(host: string, port: string): string {
    if ':' in host then "[" + host + "]:" + port else host + ":" + port
  }

  /** The text of a host and port, with or without brackets around the host. */
  predicate Pairs(hostport: string, host: string, port: string) {
    && '[' !in host && ']' !in host && ':' !in port && '[' !in port && ']' !in port
    && (hostport == "[" + host + "]:" + port || (':' !in host && hostport == host + ":" + port))
  }

  /** Splitting succeeds exactly on such texts, with their host and port. */
  lemma SplitIff(hostport: string, host: string, port: string)
    ensures SplitHostPort(hostport) == Ok((host, port)) <==> Pairs(hostport, host, port)
  {
    if SplitHostPort(hostport) == Ok((host, port)) {
      SplitPairs(hostport, host, port);
    }
    if Pairs(hostport, host, port) {
      if hostport == "[" + host + "]:" + port {
        SplitBracketed(host, port);
      } else {
        SplitPlain(host, port);
      }
    }
  }

  lemma SplitPairs(hostport: string, host: string, port: string)
    requires SplitHostPort(hostport) == Ok((host, port))
    ensures Pairs(hostport, host, port)
  {
    var i := LastIndex(hostport, ':');
    assert port == hostport[i + 1..] && ':' !in port;
    if hostport[0] == '[' {
      var end := FirstIndex(hostport, ']');
      assert host == hostport[1..end] && hostport[end] == ']' && hostport[i] == ':' && end + 1 == i;
      assert hostport == "[" + host + "]:" + port;
      assert forall c :: c in host ==> c in hostport[1..] && c in hostport[..end];
      assert forall c :: c in port ==> c in hostport[1..] && c in hostport[end + 1..];
    } else {
      assert hostport == host + ":" + port;
      assert forall c :: c in host || c in port ==> c in hostport;
    }
  }

  lemma SplitBracketed(host: string, port: string)
    requires '[' !in host && ']' !in host && ':' !in port && '[' !in port && ']' !in port
    ensures SplitHostPort("[" + host + "]:" + port) == Ok((host, port))
  {
    var s, n := "[" + host + "]:" + port, |host|;
    assert s[0] == '[' && s[n + 1] == ']' && s[n + 2] == ':';
    assert s[1..n + 1] == host && s[n + 3..] == port;
    LastIndexAt(s, ':', n + 2);
    assert s[..n + 1] == "[" + host;
    assert FirstIndex(s, ']') == n + 1 by { FirstIndexAt(s, ']', n + 1); }
    assert s[1..] == host + "]:" + port;
    assert s[n + 2..] == ":" + port;
  }

  lemma FirstIndexAt(s: string, c: char, k: nat)
    requires k < |s| && s[k] == c && c !in s[..k]
    ensures FirstIndex(s, c) == k
  {
  }

  lemma SplitPlain(host: string, port: string)
    requires ':' !in host && '[' !in host && ']' !in host
    requires ':' !in port && '[' !in port && ']' !in port
    ensures SplitHostPort(host + ":" + port) == Ok((host, port))
  {
    var joined := host + ":" + port;
    assert joined[|host| + 1..] == port;
    LastIndexAt(joined, ':', |host|);
    var i := |host|;
    assert joined[..i] == host && joined[i + 1..] == port;
    assert '[' !in joined && ']' !in joined;
    assert joined[0] in joined;
  }

  /** Joining and splitting undo each other on every host and port without brackets. */
  lemma SplitJoin(host: string, port: string)
    requires '[' !in host && ']' !in host
    requires ':' !in port && '[' !in port && ']' !in port
    ensures SplitHostPort(JoinHostPort(host, port)) == Ok((host, port))
  {
    if ':' in host {
      SplitBracketed(host, port);
    } else {
      SplitPlain(host, port);
    }
  }

  predicate IsDigit(c: char) { '0' <= c <= '9' }

  predicate AllDigits(s: string) { forall i :: 0 <= i < |s| ==> IsDigit(s[i]) }

  function DigitsValue(s: string): int
    requires AllDigits(s)
  {
    if s == "" then 0 else 10 * DigitsValue(s[..|s| - 1]) + (s[|s| - 1] as int - '0' as int)
  }

  /** strconv.Atoi, without its 64-bit overflow error: every use also bounds the value by 65535. */
  function Atoi(s: string): Option<int> {
    var digits := if s != "" && (s[0] == '+' || s[0] == '-') then s[1..] else s;
    if digits == "" || !AllDigits(digits) then None
    else Some(if s[0] == '-' then -DigitsValue(digits) else DigitsValue(digits))
  }

  function Itoa(n: nat): (s: string)
    ensures |s| >= 1
    ensures AllDigits(s)
  {
    var digit := ('0' as int + n % 10) as char;
    if n < 10 then [digit] else Itoa(n / 10) + [digit]
  }

  lemma {:induction false} ItoaValue(n: nat)
    ensures DigitsValue(Itoa(n)) == n
  {
    if n >= 10 {
      ItoaValue(n / 10);
      assert Itoa(n)[..|Itoa(n)| - 1] == Itoa(n / 10);
    } else {
      assert Itoa(n)[..0] == "";
    }
  }

  lemma AtoiItoa(n: nat)
    ensures Atoi(Itoa(n)) == Some(n)
  {
    ItoaValue(n);
  }

  /** One sign may precede the digits. */
  lemma AtoiSigned(digits: string)
    requires digits != "" && AllDigits(digits)
    ensures Atoi("+" + digits) == Atoi(digits) == Some(DigitsValue(digits)) && Atoi("-" + digits) == Some(-DigitsValue(digits))
  {
    assert ("+" + digits)[1..] == digits && ("-" + digits)[1..] == digits;
  }

  /** Digits without a needless zero in front. */
  predicate Shortest(digits: string) {
    digits != "" && AllDigits(digits) && (|digits| > 1 ==> digits[0] != '0')
  }

  lemma {:induction false} ItoaShortest(n: nat)
    ensures Shortest(Itoa(n)) && (n > 0 ==> Itoa(n)[0] != '0')
  {
    if n >= 10 {
      ItoaShortest(n / 10);
    }
  }

  /** Itoa is the only shortest text of a number. */
  lemma {:induction false} ItoaUnique(digits: string, n: nat)
    requires Shortest(digits) && DigitsValue(digits) == n
    ensures digits == Itoa(n)
  {
    var init, last := digits[..|digits| - 1], digits[|digits| - 1];
    assert digits == init + [last];
    if init != "" {
      NonZero(init);
      ItoaUnique(init, DigitsValue(init));
    } else {
      assert DigitsValue("") == 0;
    }
  }

  lemma {:induction false} NonZero(digits: string)
    requires digits != "" && AllDigits(digits) && digits[0] != '0'
    ensures DigitsValue(digits) > 0
  {
    if |digits| > 1 {
      NonZero(digits[..|digits| - 1]);
    } else {
      assert digits[..0] == "";
    }
  }

  predicate ValidPort(port: string) {
    var n := Atoi(port);
    n.Some? && 1 <= n.value <= 65535
  }

  /** A numeric port has none of the characters that host:port splitting treats specially,
      and no whitespace. */
  lemma PortIsPlain(p: Platform, port: string)
    requires Atoi(port).Some?
    ensures ':' !in port && '[' !in port && ']' !in port
    ensures TrimSpace(p, port) == port != ""
  {
    NumberChars(port);
    hide Atoi;
    PlainText(p, port);
  }

  lemma NumberChars(port: string)
    requires Atoi(port).Some?
    ensures port != "" && forall i :: 0 <= i < |port| ==> IsDigit(port[i]) || port[i] == '+' || port[i] == '-'
  {
    var digits := if port[0] == '+' || port[0] == '-' then port[1..] else port;
    assert AllDigits(digits);
    assert port == digits || port == [port[0]] + digits;
  }

  /** The text is front and then the number in decimal. */
  predicate IsDecimalAfter(front: string, n: int, text: string) {
    front <= text && Shortest(text[|front|..]) && Atoi(text[|front|..]) == Some(n)
  }

  lemma DecimalAfterIff(front: string, n: nat, text: string)
    ensures text == front + Itoa(n) <==> IsDecimalAfter(front, n, text)
  {
    ItoaShortest(n);
    AtoiItoa(n);
    assert (front + Itoa(n))[|front|..] == Itoa(n);
    if IsDecimalAfter(front, n, text) {
      ItoaUnique(text[|front|..], n);
      assert text == front + text[|front|..];
    }
  }
}

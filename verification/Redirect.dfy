/** Redirect links of search engines (engine/scraper.go, resolveRelativeURL), with base64 as in
    sections 4 and 5 of RFC 4648. Every char is one byte. */
module Redirect {
  import opened Options
  import opened Text

  // ----- the two alphabets

  /** The standard alphabet. */
  function StdChar(d: nat): (c: char)
    requires d < 64
  {
    if d < 26 then ('A' as int + d) as char
    else if d < 52 then ('a' as int + d - 26) as char
    else if d < 62 then ('0' as int + d - 52) as char
    else if d == 62 then '+'
    else '/'
  }

  /** The URL-safe alphabet. */
  function UrlChar(d: nat): (c: char)
    requires d < 64
  {
    if d == 62 then '-' else if d == 63 then '_' else StdChar(d)
  }

  function Digit(c: char): (d: Option<nat>)
    ensures d.Some? ==> d.value < 64
  {
    if 'A' <= c <= 'Z' then Some(c as int - 'A' as int)
    else if 'a' <= c <= 'z' then Some(c as int - 'a' as int + 26)
    else if '0' <= c <= '9' then Some(c as int - '0' as int + 52)
    else if c == '+' then Some(62)
    else if c == '/' then Some(63)
    else None
  }

  // ----- encoding, unpadded and URL-safe

  predicate AreSextets(ds: seq<nat>) {
    forall i :: 0 <= i < |ds| ==> ds[i] < 64
  }

  function Triple(a: nat, b: nat, c: nat): (r: seq<nat>)
    requires a < 256 && b < 256 && c < 256
    ensures |r| == 4 && AreSextets(r)
  {
    [a / 4, a % 4 * 16 + b / 16, b % 16 * 4 + c / 64, c % 64]
  }

  /** Groups of six bits; a last group of one or two bytes gives two or three of them. */
  function Sextets(s: string): (r: seq<nat>)
    requires IsBytes(s)
    ensures AreSextets(r) && |r| == (|s| * 4 + 2) / 3
    decreases |s|
  {
    if s == "" then []
    else if |s| == 1 then Triple(s[0] as int, 0, 0)[..2]
    else if |s| == 2 then Triple(s[0] as int, s[1] as int, 0)[..3]
    else Triple(s[0] as int, s[1] as int, s[2] as int) + Sextets(s[3..])
  }

  function Encode(s: string): (r: string)
    requires IsBytes(s)
    ensures |r| == (|s| * 4 + 2) / 3
  {
    var ds := Sextets(s);
    seq(|ds|, i requires 0 <= i < |ds| => UrlChar(ds[i]))
  }

  // ----- Go's decoder for the padded standard encoding

  function Byte(n: nat): char
    requires n < 256
  {
    n as char
  }

  /** Four characters; only the last group may end in one or two '='. Bits past the last whole byte
      are dropped. */
  function DecodeGroup(c0: char, c1: char, c2: char, c3: char, last: bool): Option<string> {
    match (Digit(c0), Digit(c1))
    case (Some(p), Some(q)) =>
      if c2 == '=' then
        if c3 == '=' && last then Some([Byte(p * 4 + q / 16)]) else None
      else
        (match Digit(c2)
         case None => None
         case Some(r) =>
           if c3 == '=' then
             if last then Some([Byte(p * 4 + q / 16), Byte(q % 16 * 16 + r / 4)]) else None
           else
             (match Digit(c3)
              case None => None
              case Some(t) => Some([Byte(p * 4 + q / 16), Byte(q % 16 * 16 + r / 4), Byte(r % 4 * 64 + t)])))
    case _ => None
  }

  function DecodeGroups(s: string): Option<string>
    decreases |s|
  {
    if s == "" then Some("")
    else if |s| < 4 then None
    else
      match (DecodeGroup(s[0], s[1], s[2], s[3], |s| == 4), DecodeGroups(s[4..]))
      case (Some(bytes), Some(rest)) => Some(bytes + rest)
      case _ => None
  }

  /** StdEncoding.DecodeString skips line breaks. */
  function DecodeString(s: string): Option<string> {
    DecodeGroups(ReplaceAll(ReplaceAll(s, "\r", ""), "\n", ""))
  }

  // ----- the link resolver

  /** What url.Parse reports about a link. */
  datatype Link = Link(query: map<string, seq<string>>, isAbs: bool)

  function Get(query: map<string, seq<string>>, key: string): string {
    if key in query && query[key] != [] then query[key][0] else ""
  }

  function Padding(n: nat): (r: string)
    ensures |r| == n
    ensures forall i :: 0 <= i < n ==> r[i] == '='
  {
    seq(n, _ => '=')
  }

  function PadTo4(s: string): string {
    if |s| % 4 != 0 then s + Padding(4 - |s| % 4) else s
  }

  function DecodeUrlSafe(base64: string): Option<string> {
    DecodeString(ReplaceAll(ReplaceAll(PadTo4(base64), "-", "+"), "_", "/"))
  }

  /** The Bing branch: "a1" and base64url, or else the parameter as it stands. */
  function DecodeTarget(u: string): string {
    if "a1" <= u && |u| > 2 then
      match DecodeUrlSafe(u[2..])
      case Some(decoded) => decoded
      case None => u
    else u
  }

  predicate IsTracking(link: string) {
    || Contains(link, "/url?") || Contains(link, "google.com/url?")
    || Contains(link, "/l/?") || Contains(link, "duckduckgo.com/l/?")
    || Contains(link, "yahoo.com/url") || Contains(link, "/url/")
    || Contains(link, "bing.com/ck/")
  }

  function Absolute(scheme: string, link: string): string {
    if "//" <= TrimSpace(link) then scheme + ":" + TrimSpace(link) else TrimSpace(link)
  }

  /** The target inside a tracking link's query, when it has one. */
  function RedirectTarget(query: map<string, seq<string>>): Option<string> {
    if Get(query, "uddg") != "" then Some(Get(query, "uddg"))
    else if Get(query, "q") != "" then Some(Get(query, "q"))
    else if Get(query, "url") != "" then Some(Get(query, "url"))
    else if Get(query, "u") != "" then Some(DecodeTarget(Get(query, "u")))
    else None
  }

  method DecodeParameter(u: string) returns (r: string)
    ensures r == DecodeTarget(u)
  {
    if "a1" <= u && |u| > 2 {
      var base64Str := u[2..];
      var pad := |base64Str| % 4;
      if pad != 0 {
        base64Str := base64Str + Padding(4 - pad);
      }
      base64Str := ReplaceAll(base64Str, "-", "+");
      base64Str := ReplaceAll(base64Str, "_", "/");
      var decoded := DecodeString(base64Str);
      if decoded.Some? {
        return decoded.value;
      }
    }
    return u;
  }

  method ExtractTarget(query: map<string, seq<string>>) returns (r: Option<string>)
    ensures r == RedirectTarget(query)
  {
    var uddg := Get(query, "uddg");
    if uddg != "" {
      return Some(uddg);
    }
    var q := Get(query, "q");
    if q != "" {
      return Some(q);
    }
    var urlParam := Get(query, "url");
    if urlParam != "" {
      return Some(urlParam);
    }
    var u := Get(query, "u");
    if u != "" {
      var target := DecodeParameter(u);
      return Some(target);
    }
    return None;
  }

  /** url.Parse and ResolveReference are parameters. */
  function ResolvedLink(scheme: string, link: string, parse: string -> Option<Link>, resolve: string -> string): string
  {
    var abs := Absolute(scheme, link);
    var parsed := parse(abs);
    var target := if IsTracking(abs) && parsed.Some? then RedirectTarget(parsed.value.query) else None;
    match target
    case Some(t) => t
    case None => if parsed.None? || parsed.value.isAbs then abs else resolve(abs)
  }

  method ResolveRelativeURL(scheme: string, link: string, parse: string -> Option<Link>, resolve: string -> string)
    returns (r: string)
    ensures r == ResolvedLink(scheme, link, parse, resolve)
  {
    var relativeStr := TrimSpace(link);
    if "//" <= relativeStr {
      relativeStr := scheme + ":" + relativeStr;
    }
    var parsed := parse(relativeStr);
    if IsTracking(relativeStr) && parsed.Some? {
      var target := ExtractTarget(parsed.value.query);
      if target.Some? {
        return target.value;
      }
    }
    if parsed.None? || parsed.value.isAbs {
      return relativeStr;
    }
    return resolve(relativeStr);
  }

  // ----- the round trip

  function StdChars(ds: seq<nat>): (r: string)
    requires AreSextets(ds)
    ensures |r| == |ds|
    ensures forall i :: 0 <= i < |ds| ==> r[i] == StdChar(ds[i])
  {
    seq(|ds|, i requires 0 <= i < |ds| => StdChar(ds[i]))
  }

  /** The same encoding in the standard alphabet with padding. */
  function EncodeStd(s: string): string
    requires IsBytes(s)
  {
    PadTo4(StdChars(Sextets(s)))
  }

  /** One character through the alphabet swap. */
  function SwapChar(c: char): char {
    if c == '-' then '+' else if c == '_' then '/' else c
  }

  function SwapAll(s: string): (r: string)
    ensures |r| == |s|
    ensures forall i :: 0 <= i < |s| ==> r[i] == SwapChar(s[i])
  {
    seq(|s|, i requires 0 <= i < |s| => SwapChar(s[i]))
  }

  lemma ReplacesAreSwap(s: string)
    ensures ReplaceAll(ReplaceAll(s, "-", "+"), "_", "/") == SwapAll(s)
  {
    ReplaceAllIsReplaceChar(s, '-', '+');
    ReplaceAllIsReplaceChar(ReplaceAll(s, "-", "+"), '_', '/');
  }

  lemma SwapUrlChar(d: nat)
    requires d < 64
    ensures SwapChar(UrlChar(d)) == StdChar(d)
  {
  }

  /** Padding to a multiple of four and swapping the alphabet yields the standard encoding. */
  lemma PaddedSwapIsStd(s: string)
    requires IsBytes(s)
    ensures SwapAll(PadTo4(Encode(s))) == EncodeStd(s)
  {
    var ds := Sextets(s);
    forall i | 0 <= i < |ds| ensures SwapChar(Encode(s)[i]) == StdChars(ds)[i] {
      SwapUrlChar(ds[i]);
    }
  }

  lemma GroupArithmetic(a: nat, b: nat, c: nat)
    requires a < 256 && b < 256 && c < 256
    ensures var ds := Triple(a, b, c);
      ds[0] * 4 + ds[1] / 16 == a && ds[1] % 16 * 16 + ds[2] / 4 == b && ds[2] % 4 * 64 + ds[3] == c
  {
    assert (a % 4 * 16 + b / 16) / 16 == a % 4 && (a % 4 * 16 + b / 16) % 16 == b / 16;
    assert (b % 16 * 4 + c / 64) / 4 == b % 16 && (b % 16 * 4 + c / 64) % 4 == c / 64;
  }

  lemma StdCharIsDigit(d: nat)
    requires d < 64
    ensures Digit(StdChar(d)) == Some(d) && StdChar(d) != '='
  {
  }

  lemma GroupDecodes(p: nat, q: nat, r: nat, t: nat, last: bool)
    requires p < 64 && q < 64 && r < 64 && t < 64
    ensures DecodeGroup(StdChar(p), StdChar(q), StdChar(r), StdChar(t), last)
         == Some([Byte(p * 4 + q / 16), Byte(q % 16 * 16 + r / 4), Byte(r % 4 * 64 + t)])
    ensures DecodeGroup(StdChar(p), StdChar(q), StdChar(r), '=', true)
         == Some([Byte(p * 4 + q / 16), Byte(q % 16 * 16 + r / 4)])
    ensures DecodeGroup(StdChar(p), StdChar(q), '=', '=', true) == Some([Byte(p * 4 + q / 16)])
  {
    StdCharIsDigit(p);
    StdCharIsDigit(q);
    StdCharIsDigit(r);
    StdCharIsDigit(t);
  }

  lemma TripleDecodes(a: nat, b: nat, c: nat, last: bool)
    requires a < 256 && b < 256 && c < 256
    ensures var e := StdChars(Triple(a, b, c));
      && DecodeGroup(e[0], e[1], e[2], e[3], last) == Some([Byte(a), Byte(b), Byte(c)])
      && DecodeGroup(e[0], e[1], e[2], '=', true) == Some([Byte(a), Byte(b)])
      && DecodeGroup(e[0], e[1], '=', '=', true) == Some([Byte(a)])
  {
    var ds := Triple(a, b, c);
    GroupArithmetic(a, b, c);
    GroupDecodes(ds[0], ds[1], ds[2], ds[3], last);
  }

  lemma DecodeAppend(head: string, tail: string)
    requires |head| == 4 && DecodeGroups(tail).Some?
    requires DecodeGroup(head[0], head[1], head[2], head[3], tail == "").Some?
    ensures DecodeGroups(head + tail)
         == Some(DecodeGroup(head[0], head[1], head[2], head[3], tail == "").value + DecodeGroups(tail).value)
  {
    assert (head + tail)[4..] == tail;
  }

  lemma StdCharsConcat(a: seq<nat>, b: seq<nat>)
    requires AreSextets(a) && AreSextets(b) && AreSextets(a + b)
    ensures StdChars(a + b) == StdChars(a) + StdChars(b)
  {
  }

  lemma PadAfterFour(head: string, tail: string)
    requires |head| == 4
    ensures PadTo4(head + tail) == head + PadTo4(tail)
  {
  }

  lemma EncodeStdSplits(s: string)
    requires IsBytes(s) && |s| > 2
    ensures EncodeStd(s) == StdChars(Triple(s[0] as int, s[1] as int, s[2] as int)) + EncodeStd(s[3..])
  {
    var head, tail := Triple(s[0] as int, s[1] as int, s[2] as int), Sextets(s[3..]);
    StdCharsConcat(head, tail);
    PadAfterFour(StdChars(head), StdChars(tail));
  }

  lemma OneByte(s: string)
    requires IsBytes(s) && |s| == 1
    ensures DecodeGroups(EncodeStd(s)) == Some(s)
  {
    var e := EncodeStd(s);
    var full := StdChars(Triple(s[0] as int, 0, 0));
    assert e[0] == full[0] && e[1] == full[1] && e[2] == e[3] == '=';
    TripleDecodes(s[0] as int, 0, 0, true);
    DecodeAppend(e, "");
    assert e + "" == e && s == [Byte(s[0] as int)] + "";
  }

  lemma TwoBytes(s: string)
    requires IsBytes(s) && |s| == 2
    ensures DecodeGroups(EncodeStd(s)) == Some(s)
  {
    var e := EncodeStd(s);
    var full := StdChars(Triple(s[0] as int, s[1] as int, 0));
    assert e[0] == full[0] && e[1] == full[1] && e[2] == full[2] && e[3] == '=';
    TripleDecodes(s[0] as int, s[1] as int, 0, true);
    DecodeAppend(e, "");
    assert e + "" == e && s == [Byte(s[0] as int), Byte(s[1] as int)] + "";
  }

  lemma DecodeFirst(a: nat, b: nat, c: nat, tail: string, rest: string)
    requires a < 256 && b < 256 && c < 256 && DecodeGroups(tail) == Some(rest)
    ensures DecodeGroups(StdChars(Triple(a, b, c)) + tail) == Some([Byte(a), Byte(b), Byte(c)] + rest)
  {
    TripleDecodes(a, b, c, tail == "");
    DecodeAppend(StdChars(Triple(a, b, c)), tail);
  }

  lemma ThreeBytes(s: string)
    requires IsBytes(s) && |s| > 2 && DecodeGroups(EncodeStd(s[3..])) == Some(s[3..])
    ensures DecodeGroups(EncodeStd(s)) == Some(s)
  {
    EncodeStdSplits(s);
    DecodeFirst(s[0] as int, s[1] as int, s[2] as int, EncodeStd(s[3..]), s[3..]);
    assert s == [s[0], s[1], s[2]] + s[3..];
  }

  lemma {:induction false} DecodeInvertsEncodeStd(s: string)
    requires IsBytes(s)
    ensures DecodeGroups(EncodeStd(s)) == Some(s)
    decreases |s|
  {
    if |s| == 1 {
      OneByte(s);
    } else if |s| == 2 {
      TwoBytes(s);
    } else if |s| > 2 {
      DecodeInvertsEncodeStd(s[3..]);
      ThreeBytes(s);
    }
  }

  lemma StdCharNoBreak(d: nat)
    requires d < 64
    ensures StdChar(d) != '\r' && StdChar(d) != '\n'
  {
  }

  lemma EncodeStdNoBreak(s: string)
    requires IsBytes(s)
    ensures forall i :: 0 <= i < |EncodeStd(s)| ==> EncodeStd(s)[i] != '\r' && EncodeStd(s)[i] != '\n'
  {
    forall i | 0 <= i < |EncodeStd(s)|
      ensures EncodeStd(s)[i] != '\r' && EncodeStd(s)[i] != '\n'
    {
      if i < |Sextets(s)| {
        StdCharNoBreak(Sextets(s)[i]);
      }
    }
  }

  lemma {:induction false} ReplaceNothing(s: string, c: char)
    requires forall i :: 0 <= i < |s| ==> s[i] != c
    ensures ReplaceAll(s, [c], "") == s
  {
    if s != "" {
      ReplaceNothing(s[1..], c);
      assert s == [s[0]] + s[1..];
    }
  }

  lemma DecodeUrlSafeInvertsEncode(s: string)
    requires IsBytes(s)
    ensures DecodeUrlSafe(Encode(s)) == Some(s)
  {
    PaddedSwapIsStd(s);
    ReplacesAreSwap(PadTo4(Encode(s)));
    EncodeStdNoBreak(s);
    ReplaceNothing(EncodeStd(s), '\r');
    ReplaceNothing(EncodeStd(s), '\n');
    DecodeInvertsEncodeStd(s);
  }

  /** "a1" and the unpadded URL-safe encoding decode to the encoded bytes, whatever their number. */
  lemma TargetRoundTrip(s: string)
    requires IsBytes(s) && s != ""
    ensures DecodeTarget("a1" + Encode(s)) == s
  {
    var u := "a1" + Encode(s);
    assert u[2..] == Encode(s);
    DecodeUrlSafeInvertsEncode(s);
  }

  /** Every tracking link that carries an encoded target, and no earlier parameter, resolves to it. */
  method ResolveEncoded(
    scheme: string, link: string, parse: string -> Option<Link>, resolve: string -> string, target: string)
    returns (r: string)
    requires IsBytes(target) && target != ""
    requires Contains(Absolute(scheme, link), "bing.com/ck/")
    requires parse(Absolute(scheme, link)).Some?
    requires var q := parse(Absolute(scheme, link)).value.query;
      Get(q, "uddg") == Get(q, "q") == Get(q, "url") == "" && Get(q, "u") == "a1" + Encode(target)
    ensures r == target
  {
    r := ResolveRelativeURL(scheme, link, parse, resolve);
    TargetRoundTrip(target);
  }

  // ----- where a link leads

  /** The first value of the parameter is not empty. */
  predicate Given(query: map<string, seq<string>>, key: string) {
    key in query && query[key] != [] && query[key][0] != ""
  }

  lemma GetGiven(query: map<string, seq<string>>, key: string)
    ensures if Given(query, key) then Get(query, key) == query[key][0] else Get(query, key) == ""
  {
  }

  /** A link is trimmed, and completed with the scheme when it begins with two slashes. */
  lemma AbsoluteMeaning(scheme: string, link: string)
    ensures Absolute(scheme, link) ==
      var t := TrimSpace(link);
      if |t| >= 2 && t[0] == '/' && t[1] == '/' then scheme + ":" + t else t
  {
  }

  predicate Marked(abs: string, marks: seq<string>) {
    exists i :: 0 <= i < |marks| && Contains(abs, marks[i])
  }

  lemma SevenMarks(abs: string, a: string, b: string, c: string, d: string, e: string, f: string, g: string)
    ensures Marked(abs, [a, b, c, d, e, f, g]) <==>
      || Contains(abs, a) || Contains(abs, b) || Contains(abs, c) || Contains(abs, d)
      || Contains(abs, e) || Contains(abs, f) || Contains(abs, g)
  {
    var marks := [a, b, c, d, e, f, g];
    assert marks[0] == a && marks[1] == b && marks[2] == c && marks[3] == d;
    assert marks[4] == e && marks[5] == f && marks[6] == g;
  }

  lemma MarksOfTracking(abs: string)
    ensures IsTracking(abs) <==> Marked(abs,
      ["/url?", "google.com/url?", "/l/?", "duckduckgo.com/l/?", "yahoo.com/url", "/url/", "bing.com/ck/"])
  {
    SevenMarks(abs, "/url?", "google.com/url?", "/l/?", "duckduckgo.com/l/?", "yahoo.com/url", "/url/", "bing.com/ck/");
  }

  /** A link with one of the seven marks leads to the first of its parameters uddg, q, url and u that is
      given, a value of u that does not begin with "a1" as it stands; a link without a mark, or with
      none of the four, stays when it is absolute or cannot be parsed, and is resolved otherwise. */
  lemma WhereLinksLead(scheme: string, link: string, parse: string -> Option<Link>, resolve: string -> string)
    ensures var t := TrimSpace(link);
      var abs := if |t| >= 2 && t[0] == '/' && t[1] == '/' then scheme + ":" + t else t;
      var marked := Marked(abs,
        ["/url?", "google.com/url?", "/l/?", "duckduckgo.com/l/?", "yahoo.com/url", "/url/", "bing.com/ck/"]);
      var r := ResolvedLink(scheme, link, parse, resolve);
      match parse(abs)
      case None => r == abs
      case Some(Link(query, isAbs)) =>
        if !marked || !(Given(query, "uddg") || Given(query, "q") || Given(query, "url") || Given(query, "u")) then
          r == if isAbs then abs else resolve(abs)
        else if Given(query, "uddg") then r == query["uddg"][0]
        else if Given(query, "q") then r == query["q"][0]
        else if Given(query, "url") then r == query["url"][0]
        else |query["u"][0]| <= 2 || query["u"][0][..2] != "a1" ==> r == query["u"][0]
  {
    AbsoluteMeaning(scheme, link);
    var abs := Absolute(scheme, link);
    MarksOfTracking(abs);
    match parse(abs) {
      case None =>
      case Some(Link(query, isAbs)) =>
        GetGiven(query, "uddg");
        GetGiven(query, "q");
        GetGiven(query, "url");
        GetGiven(query, "u");
    }
  }

  // ----- the alphabets and the bits

  const CAPITALS := "ABCDEFGHIJKLMNOPQRSTUVWXYZ"
  const SMALL := "abcdefghijklmnopqrstuvwxyz"
  const DIGITS := "0123456789"
  const STANDARD := CAPITALS + SMALL + DIGITS + "+/"
  const URL_SAFE := CAPITALS + SMALL + DIGITS + "-_"

  lemma CapitalsInOrder(i: nat)
    requires i < 26
    ensures CAPITALS[i] as int == 'A' as int + i
  {
    assert CAPITALS == seq(26, k requires 0 <= k < 26 => ('A' as int + k) as char);
  }

  lemma SmallInOrder(i: nat)
    requires i < 26
    ensures SMALL[i] as int == 'a' as int + i
  {
    assert SMALL == seq(26, k requires 0 <= k < 26 => ('a' as int + k) as char);
  }

  lemma DigitsInOrder(i: nat)
    requires i < 10
    ensures DIGITS[i] as int == '0' as int + i
  {
    assert DIGITS == seq(10, k requires 0 <= k < 10 => ('0' as int + k) as char);
  }

  lemma AlphabetsWrittenOut(d: nat)
    requires d < 64
    ensures StdChar(d) == STANDARD[d] && UrlChar(d) == URL_SAFE[d]
  {
    if d < 26 {
      CapitalsInOrder(d);
    } else if d < 52 {
      SmallInOrder(d - 26);
    } else if d < 62 {
      DigitsInOrder(d - 52);
    }
  }

  /** Three bytes are 24 bits, cut into four digits; one byte is padded to 12 bits and two to 18. */
  lemma DigitsOfBytes(s: string)
    requires IsBytes(s) && 1 <= |s| <= 3
    ensures var d := Sextets(s);
      if |s| == 1 then |d| == 2 && d[0] * 64 + d[1] == s[0] as int * 16
      else if |s| == 2 then |d| == 3 && (d[0] * 64 + d[1]) * 64 + d[2] == (s[0] as int * 256 + s[1] as int) * 4
      else |d| == 4 && ((d[0] * 64 + d[1]) * 64 + d[2]) * 64 + d[3]
             == (s[0] as int * 256 + s[1] as int) * 256 + s[2] as int
  {
    if |s| == 3 {
      assert Sextets(s[3..]) == [];
    }
  }

  /** The bytes that digit number i comes from: up to three. */
  function GroupOf(s: string, i: nat): string
    requires i / 4 * 3 <= |s|
  {
    s[i / 4 * 3..if i / 4 * 3 + 3 <= |s| then i / 4 * 3 + 3 else |s|]
  }

  lemma GroupShifts(s: string, i: nat)
    requires |s| > 3 && i >= 4 && i / 4 * 3 <= |s|
    ensures (i - 4) / 4 * 3 <= |s[3..]| && (i - 4) % 4 == i % 4 && GroupOf(s, i) == GroupOf(s[3..], i - 4)
  {
    var from := i / 4 * 3;
    assert (i - 4) / 4 == i / 4 - 1 && (i - 4) % 4 == i % 4;
    assert (i - 4) / 4 * 3 == from - 3;
    var to := if from + 3 <= |s| then from + 3 else |s|;
    assert s[3..][from - 3..to - 3] == s[from..to];
  }

  lemma FirstGroup(s: string)
    requires IsBytes(s) && |s| > 3
    ensures Sextets(s) == Sextets(s[..3]) + Sextets(s[3..]) && |Sextets(s[..3])| == 4
  {
    assert s[..3][3..] == "";
    assert Sextets(s[..3]) == Triple(s[0] as int, s[1] as int, s[2] as int) + [];
  }

  lemma GroupInShort(s: string, i: nat)
    requires IsBytes(s) && |s| <= 3 && i < |Sextets(s)|
    ensures i / 4 == 0 && i % 4 == i && GroupOf(s, i) == s && 1 <= |s|
  {
    assert s[0..|s|] == s;
  }

  lemma GroupFirst(s: string, i: nat)
    requires |s| > 3 && i < 4
    ensures i / 4 == 0 && i % 4 == i && GroupOf(s, i) == s[..3]
  {
  }

  lemma {:induction false} SextetInGroup(s: string, i: nat)
    requires IsBytes(s) && i < |Sextets(s)|
    ensures i / 4 * 3 <= |s| && 1 <= |GroupOf(s, i)| <= 3
    ensures i % 4 < |Sextets(GroupOf(s, i))| && Sextets(s)[i] == Sextets(GroupOf(s, i))[i % 4]
    decreases |s|
  {
    if |s| <= 3 {
      GroupInShort(s, i);
    } else {
      FirstGroup(s);
      if i < 4 {
        GroupFirst(s, i);
      } else {
        SextetInGroup(s[3..], i - 4);
        assert i / 4 * 3 <= |s| by {
          assert (i - 4) / 4 == i / 4 - 1;
        }
        GroupShifts(s, i);
      }
    }
  }

  /** The encoding is base64url: the digits of three bytes at a time, in the URL-safe alphabet. */
  lemma EncodeMeaning(s: string, i: nat)
    requires IsBytes(s) && i < |Encode(s)|
    ensures i / 4 * 3 <= |s| && 1 <= |GroupOf(s, i)| <= 3 && i % 4 < |Sextets(GroupOf(s, i))|
    ensures Encode(s)[i] == URL_SAFE[Sextets(GroupOf(s, i))[i % 4]]
  {
    SextetInGroup(s, i);
    AlphabetsWrittenOut(Sextets(s)[i]);
  }

  // ----- targets that cannot be decoded

  lemma {:induction false} ForeignCharFails(s: string, i: nat)
    requires i < |s| && s[i] != '=' && Digit(s[i]) == None
    ensures DecodeGroups(s) == None
    decreases |s|
  {
    if |s| >= 4 {
      if i >= 4 {
        ForeignCharFails(s[4..], i - 4);
      } else {
        assert DecodeGroup(s[0], s[1], s[2], s[3], |s| == 4) == None;
      }
    }
  }

  /** A character that belongs to neither alphabet nor to the padding, and is no line break. */
  predicate Foreign(c: char) {
    c !in STANDARD && c != '-' && c != '_' && c != '=' && c != '\r' && c != '\n'
  }

  lemma DigitNeedsAlphabet(c: char)
    ensures Digit(c).Some? ==> c in STANDARD
  {
    if Digit(c).Some? {
      var d := Digit(c).value;
      AlphabetsWrittenOut(d);
      assert StdChar(d) == c;
      assert STANDARD[d] in STANDARD;
    }
  }

  lemma {:induction false} RemovalKeeps(s: string, c: char, x: char)
    requires x in s && x != c
    ensures x in ReplaceAll(s, [c], "")
    decreases |s|
  {
    if s[0] != x {
      RemovalKeeps(s[1..], c, x);
    }
    assert s == [s[0]] + s[1..];
  }

  /** A target with such a character cannot be decoded, and is taken as it stands. */
  lemma ForeignTargetStands(u: string, c: char)
    requires |u| > 2 && "a1" <= u && c in u[2..] && Foreign(c)
    ensures DecodeTarget(u) == u
  {
    var padded := PadTo4(u[2..]);
    ReplacesAreSwap(padded);
    var i :| 0 <= i < |u[2..]| && u[2..][i] == c;
    assert padded[i] == c && SwapAll(padded)[i] == SwapChar(c) == c;
    var swapped := SwapAll(padded);
    RemovalKeeps(swapped, '\r', c);
    RemovalKeeps(ReplaceAll(swapped, "\r", ""), '\n', c);
    var bare := ReplaceAll(ReplaceAll(swapped, "\r", ""), "\n", "");
    var j :| 0 <= j < |bare| && bare[j] == c;
    DigitNeedsAlphabet(c);
    ForeignCharFails(bare, j);
  }

  lemma OneGroup(c0: char, c1: char, c2: char, c3: char, bytes: string)
    requires DecodeGroup(c0, c1, c2, c3, true) == Some(bytes)
    ensures DecodeGroups([c0, c1, c2, c3]) == Some(bytes)
  {
    assert [c0, c1, c2, c3][4..] == "";
    assert DecodeGroups("") == Some("") && bytes + "" == bytes;
  }

  /** Bits past the last whole byte are not looked at. */
  lemma SpareBitsIgnored(p: nat, q: nat, r: nat)
    requires p < 64 && q < 64 && r < 64
    ensures DecodeGroups([STANDARD[p], STANDARD[q], '=', '=']) == Some([(p * 4 + q / 16) as char])
    ensures DecodeGroups([STANDARD[p], STANDARD[q], STANDARD[r], '='])
         == Some([(p * 4 + q / 16) as char, (q % 16 * 16 + r / 4) as char])
  {
    AlphabetsWrittenOut(p);
    AlphabetsWrittenOut(q);
    AlphabetsWrittenOut(r);
    GroupDecodes(p, q, r, 0, true);
    OneGroup(StdChar(p), StdChar(q), '=', '=', [Byte(p * 4 + q / 16)]);
    OneGroup(StdChar(p), StdChar(q), StdChar(r), '=', [Byte(p * 4 + q / 16), Byte(q % 16 * 16 + r / 4)]);
  }

  /** Padding before the last group makes the text undecodable. */
  lemma PaddingInside(s: string)
    requires |s| > 4 && (s[2] == '=' || s[3] == '=')
    ensures DecodeGroups(s) == None
  {
    assert DecodeGroup(s[0], s[1], s[2], s[3], false) == None;
  }

  /** Line breaks inside the text are skipped. */
  lemma LineBreaksSkipped(a: string, b: string)
    ensures DecodeString(a + "\n" + b) == DecodeString(a + b) == DecodeString(a + "\r" + b)
  {
    assert ReplaceAll("\n", "\r", "") == "\n" && ReplaceAll("\r", "\r", "") == "";
    ReplaceConcat(a + "\n", b, '\r', "");
    ReplaceConcat(a, "\n", '\r', "");
    ReplaceConcat(a + "\r", b, '\r', "");
    ReplaceConcat(a, "\r", '\r', "");
    ReplaceConcat(a, b, '\r', "");
    var x, y := ReplaceAll(a, "\r", ""), ReplaceAll(b, "\r", "");
    assert ReplaceAll("\n", "\n", "") == "";
    ReplaceConcat(x + "\n", y, '\n', "");
    ReplaceConcat(x, "\n", '\n', "");
    ReplaceConcat(x, y, '\n', "");
    assert x + "" == x && ReplaceAll(x, "\n", "") + "" == ReplaceAll(x, "\n", "");
  }
}

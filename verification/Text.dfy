/** The string operations the Go code takes from package strings, on ASCII bytes:
    every char stands for one byte, and case folding touches the letters A to Z only. */
module Text {

  predicate IsBytes(s: string) {
    forall i :: 0 <= i < |s| ==> s[i] as int < 256
  }

  predicate IsSpace(c: char) {
    c == ' ' || '\t' <= c <= '\r'
  }

  function LowerChar(c: char): char {
    if 'A' <= c <= 'Z' then (c as int + 32) as char else c
  }

  function UpperChar(c: char): char {
    if 'a' <= c <= 'z' then (c as int - 32) as char else c
  }

  function Lower(s: string): (r: string)
    ensures |r| == |s|
    ensures forall i :: 0 <= i < |s| ==> r[i] == LowerChar(s[i])
  {
    seq(|s|, i requires 0 <= i < |s| => LowerChar(s[i]))
  }

  function Upper(s: string): (r: string)
    ensures |r| == |s|
    ensures forall i :: 0 <= i < |s| ==> r[i] == UpperChar(s[i])
  {
    seq(|s|, i requires 0 <= i < |s| => UpperChar(s[i]))
  }

  function LowerAll(ts: seq<string>): (r: seq<string>)
    ensures |r| == |ts|
    ensures forall i :: 0 <= i < |ts| ==> r[i] == Lower(ts[i])
  {
    seq(|ts|, i requires 0 <= i < |ts| => Lower(ts[i]))
  }

  function TrimLeft(s: string): (r: string)
    ensures |r| <= |s|
  {
    if s != "" && IsSpace(s[0]) then TrimLeft(s[1..]) else s
  }

  function TrimRight(s: string): (r: string)
    ensures r <= s
  {
    if s != "" && IsSpace(s[|s| - 1]) then TrimRight(s[..|s| - 1]) else s
  }

  function TrimSpace(s: string): string {
    TrimRight(TrimLeft(s))
  }

  function TrimPrefix(s: string, prefix: string): string {
    if prefix <= s then s[|prefix|..] else s
  }

  predicate HasSuffix(s: string, suffix: string) {
    |suffix| <= |s| && s[|s| - |suffix|..] == suffix
  }

  function TrimSuffix(s: string, suffix: string): string {
    if HasSuffix(s, suffix) then s[..|s| - |suffix|] else s
  }

  predicate Contains(s: string, sub: string) {
    sub <= s || (s != "" && Contains(s[1..], sub))
  }

  /** strings.ReplaceAll: non-overlapping occurrences, found from left to right. */
  function ReplaceAll(s: string, old_: string, new_: string): string
    requires old_ != ""
    decreases |s|
  {
    if s == "" then ""
    else if old_ <= s then new_ + ReplaceAll(s[|old_|..], old_, new_)
    else [s[0]] + ReplaceAll(s[1..], old_, new_)
  }

  function Join(ts: seq<string>, sep: string): string {
    if ts == [] then ""
    else if |ts| == 1 then ts[0]
    else ts[0] + sep + Join(ts[1..], sep)
  }

  function IndexOf(s: string, c: char): (n: nat)
    ensures n <= |s|
    ensures c !in s[..n]
    ensures n < |s| ==> s[n] == c
  {
    if s == "" || s[0] == c then 0 else 1 + IndexOf(s[1..], c)
  }

  /** strings.Split on a one-byte separator; never empty. */
  function Split(s: string, c: char): (parts: seq<string>)
    ensures |parts| >= 1
    decreases |s|
  {
    var n := IndexOf(s, c);
    if n == |s| then [s] else [s[..n]] + Split(s[n + 1..], c)
  }

  /** Length of the leading run of bytes that are not white space. */
  function WordLength(s: string): (n: nat)
    ensures n <= |s|
    ensures forall i :: 0 <= i < n ==> !IsSpace(s[i])
    ensures n < |s| ==> IsSpace(s[n])
  {
    if s == "" || IsSpace(s[0]) then 0 else 1 + WordLength(s[1..])
  }

  /** strings.Fields: the maximal runs of bytes that are not white space. */
  function Fields(s: string): seq<string>
    decreases |s|
  {
    if s == "" then []
    else if IsSpace(s[0]) then Fields(s[1..])
    else
      var n := WordLength(s);
      [s[..n]] + Fields(s[n..])
  }

  predicate IsWord(t: string) {
    t != "" && forall i :: 0 <= i < |t| ==> !IsSpace(t[i])
  }

  // ----- case folding

  lemma LowerIdempotent(s: string)
    ensures Lower(Lower(s)) == Lower(s)
  {
  }

  lemma LowerConcat(a: string, b: string)
    ensures Lower(a + b) == Lower(a) + Lower(b)
  {
  }

  lemma LowerSpace(c: char)
    ensures IsSpace(LowerChar(c)) == IsSpace(c)
  {
  }

  lemma {:induction false} LowerTrimLeft(s: string)
    ensures TrimLeft(Lower(s)) == Lower(TrimLeft(s))
  {
    if s != "" && IsSpace(s[0]) {
      assert Lower(s)[1..] == Lower(s[1..]);
      LowerTrimLeft(s[1..]);
    }
  }

  lemma {:induction false} LowerTrimRight(s: string)
    ensures TrimRight(Lower(s)) == Lower(TrimRight(s))
  {
    if s != "" && IsSpace(s[|s| - 1]) {
      assert Lower(s)[..|s| - 1] == Lower(s[..|s| - 1]);
      LowerTrimRight(s[..|s| - 1]);
    }
  }

  lemma LowerTrimSpace(s: string)
    ensures TrimSpace(Lower(s)) == Lower(TrimSpace(s))
  {
    LowerTrimLeft(s);
    LowerTrimRight(TrimLeft(s));
  }

  lemma {:induction false} LowerJoin(ts: seq<string>, sep: string)
    requires Lower(sep) == sep
    ensures Lower(Join(ts, sep)) == Join(LowerAll(ts), sep)
  {
    if |ts| > 1 {
      LowerConcat(ts[0] + sep, Join(ts[1..], sep));
      LowerConcat(ts[0], sep);
      LowerJoin(ts[1..], sep);
      assert LowerAll(ts)[1..] == LowerAll(ts[1..]);
    }
  }

  // ----- tokens

  lemma {:induction false} FieldsAreWords(s: string)
    ensures forall t :: t in Fields(s) ==> IsWord(t)
    decreases |s|
  {
    if s != "" {
      if IsSpace(s[0]) {
        FieldsAreWords(s[1..]);
      } else {
        FieldsAreWords(s[WordLength(s)..]);
      }
    }
  }

  lemma {:induction false} WordLengthLower(s: string)
    ensures WordLength(Lower(s)) == WordLength(s)
  {
    if s != "" {
      LowerSpace(s[0]);
      assert Lower(s)[1..] == Lower(s[1..]);
      WordLengthLower(s[1..]);
    }
  }

  /** Splitting into tokens commutes with case folding. */
  lemma {:induction false} FieldsLower(s: string)
    ensures Fields(Lower(s)) == LowerAll(Fields(s))
    decreases |s|
  {
    if s != "" {
      LowerSpace(s[0]);
      if IsSpace(s[0]) {
        assert Lower(s)[1..] == Lower(s[1..]);
        FieldsLower(s[1..]);
      } else {
        var n := WordLength(s);
        WordLengthLower(s);
        assert Lower(s)[..n] == Lower(s[..n]);
        assert Lower(s)[n..] == Lower(s[n..]);
        FieldsLower(s[n..]);
      }
    }
  }

  lemma {:induction false} WordLengthAppend(s: string, rest: string)
    requires rest != "" ==> IsSpace(rest[0])
    ensures WordLength(s + rest) == WordLength(s)
  {
    if s == "" {
      assert s + rest == rest;
    } else {
      assert (s + rest)[1..] == s[1..] + rest;
      WordLengthAppend(s[1..], rest);
    }
  }

  /** A separator that starts with white space cuts the tokens apart. */
  lemma {:induction false} FieldsAppend(s: string, rest: string)
    requires rest != "" ==> IsSpace(rest[0])
    ensures Fields(s + rest) == Fields(s) + Fields(rest)
    decreases |s|
  {
    if s == "" {
      assert s + rest == rest;
    } else if IsSpace(s[0]) {
      assert (s + rest)[1..] == s[1..] + rest;
      FieldsAppend(s[1..], rest);
    } else {
      var n := WordLength(s);
      WordLengthAppend(s, rest);
      assert (s + rest)[..n] == s[..n];
      assert (s + rest)[n..] == s[n..] + rest;
      FieldsAppend(s[n..], rest);
    }
  }

  lemma {:induction false} FieldsTrimLeft(s: string)
    ensures Fields(TrimLeft(s)) == Fields(s)
  {
    if s != "" && IsSpace(s[0]) {
      FieldsTrimLeft(s[1..]);
    }
  }

  lemma {:induction false} FieldsTrimRight(s: string)
    ensures Fields(TrimRight(s)) == Fields(s)
  {
    if s != "" && IsSpace(s[|s| - 1]) {
      FieldsTrimRight(s[..|s| - 1]);
      var rest := s[|s| - 1..];
      assert s == s[..|s| - 1] + rest;
      FieldsAppend(s[..|s| - 1], rest);
      assert Fields(rest) == Fields(rest[1..]) == [];
    }
  }

  /** Splitting into tokens ignores outer white space. */
  lemma FieldsTrimSpace(s: string)
    ensures Fields(TrimSpace(s)) == Fields(s)
  {
    FieldsTrimLeft(s);
    FieldsTrimRight(TrimLeft(s));
  }

  lemma {:induction false} WordLengthOfWord(t: string)
    requires forall i :: 0 <= i < |t| ==> !IsSpace(t[i])
    ensures WordLength(t) == |t|
  {
    if t != "" {
      WordLengthOfWord(t[1..]);
    }
  }

  lemma FieldsOfWord(t: string)
    requires IsWord(t)
    ensures Fields(t) == [t]
  {
    WordLengthOfWord(t);
    assert t[..|t|] == t && t[|t|..] == "";
    assert Fields(t) == [t[..WordLength(t)]] + Fields(t[WordLength(t)..]);
    assert Fields("") == [];
  }

  /** Splitting undoes joining with single blanks. */
  lemma {:induction false} FieldsJoin(ts: seq<string>)
    requires forall t :: t in ts ==> IsWord(t)
    ensures Fields(Join(ts, " ")) == ts
  {
    if |ts| == 1 {
      FieldsOfWord(ts[0]);
    } else if |ts| > 1 {
      var tail := Join(ts[1..], " ");
      var rest := " " + tail;
      assert ts[0] + " " + tail == ts[0] + rest;
      FieldsAppend(ts[0], rest);
      FieldsOfWord(ts[0]);
      assert rest[1..] == tail;
      FieldsJoin(ts[1..]);
    }
  }

  // ----- searching

  predicate OccursAt(s: string, sub: string, i: nat) {
    i + |sub| <= |s| && s[i..i + |sub|] == sub
  }

  lemma OccursInTail(s: string, sub: string, i: nat)
    requires s != ""
    ensures OccursAt(s[1..], sub, i) <==> OccursAt(s, sub, i + 1)
  {
    if i + 1 + |sub| <= |s| {
      assert s[1..][i..i + |sub|] == s[i + 1..i + 1 + |sub|];
    }
  }

  /** Containment is occurrence at some position. */
  lemma {:induction false} ContainsMeaning(s: string, sub: string)
    ensures Contains(s, sub) <==> exists i :: OccursAt(s, sub, i)
  {
    assert sub <= s <==> OccursAt(s, sub, 0);
    if s != "" {
      ContainsMeaning(s[1..], sub);
      if i: nat :| OccursAt(s[1..], sub, i) {
        OccursInTail(s, sub, i);
      }
      if i: nat :| OccursAt(s, sub, i) && i > 0 {
        OccursInTail(s, sub, i - 1);
      }
    }
  }

  // ----- trimming

  lemma {:induction false} TrimRightEnds(s: string)
    ensures TrimRight(s) != "" ==> !IsSpace(TrimRight(s)[|TrimRight(s)| - 1])
  {
    if s != "" && IsSpace(s[|s| - 1]) {
      TrimRightEnds(s[..|s| - 1]);
    }
  }

  lemma {:induction false} TrimLeftStarts(s: string)
    ensures TrimLeft(s) != "" ==> !IsSpace(TrimLeft(s)[0])
  {
    if s != "" && IsSpace(s[0]) {
      TrimLeftStarts(s[1..]);
    }
  }

  lemma TrimSpaceEnds(s: string)
    ensures var r := TrimSpace(s); r != "" ==> !IsSpace(r[0]) && !IsSpace(r[|r| - 1])
  {
    TrimLeftStarts(s);
    TrimRightEnds(TrimLeft(s));
  }

  lemma TrimSpaceIdempotent(s: string)
    ensures TrimSpace(TrimSpace(s)) == TrimSpace(s)
  {
    TrimSpaceEnds(s);
  }

  // ----- unique decomposition

  /** Cutting at the first separator is unique. */
  lemma {:induction false} CutFirst(a: string, x: string, b: string, y: string, c: char)
    requires c !in a && c !in b
    requires a + [c] + x == b + [c] + y
    ensures a == b && x == y
  {
    var s := a + [c] + x;
    assert s[|a|] == c && s[|b|] == c;
    assert forall i :: 0 <= i < |a| ==> s[i] == a[i];
    assert forall i :: 0 <= i < |b| ==> s[i] == b[i];
    assert |a| == |b|;
    assert a == s[..|a|] && b == s[..|b|];
    assert x == s[|a| + 1..] && y == s[|b| + 1..];
  }

  /** Cutting at the last separator is unique. */
  lemma {:induction false} CutLast(a: string, x: string, b: string, y: string, c: char)
    requires c !in x && c !in y
    requires a + [c] + x == b + [c] + y
    ensures a == b && x == y
  {
    var s := a + [c] + x;
    assert s[|a|] == c && s[|b|] == c;
    assert forall i :: |a| < i < |s| ==> s[i] == x[i - |a| - 1];
    assert forall i :: |b| < i < |s| ==> s[i] == y[i - |b| - 1];
    assert |a| == |b|;
    assert a == s[..|a|] && b == s[..|b|];
    assert x == s[|a| + 1..] && y == s[|b| + 1..];
  }

  lemma {:induction false} JoinFree(ts: seq<string>, sep: string, c: char)
    requires c !in sep
    requires forall t :: t in ts ==> c !in t
    ensures c !in Join(ts, sep)
  {
    if |ts| > 1 {
      JoinFree(ts[1..], sep, c);
    }
  }

  lemma {:induction false} JoinHasSeparator(ts: seq<string>, c: char)
    requires |ts| > 1
    ensures c in Join(ts, [c])
  {
    assert Join(ts, [c])[|ts[0]|] == c;
  }

  /** Joining loses nothing when no piece holds the separator and there is a piece at all. */
  lemma {:induction false} JoinInjective(a: seq<string>, b: seq<string>, c: char)
    requires a != [] && b != []
    requires forall t :: t in a ==> c !in t
    requires forall t :: t in b ==> c !in t
    requires Join(a, [c]) == Join(b, [c])
    ensures a == b
  {
    if |a| == 1 && |b| > 1 {
      JoinHasSeparator(b, c);
      assert false;
    } else if |b| == 1 && |a| > 1 {
      JoinHasSeparator(a, c);
      assert false;
    } else if |a| > 1 {
      CutFirst(a[0], Join(a[1..], [c]), b[0], Join(b[1..], [c]), c);
      JoinInjective(a[1..], b[1..], c);
      assert a == [a[0]] + a[1..] && b == [b[0]] + b[1..];
    }
  }

  // ----- replacing characters

  function ReplaceChar(s: string, c: char, d: char): (r: string)
    ensures |r| == |s|
    ensures forall i :: 0 <= i < |s| ==> r[i] == if s[i] == c then d else s[i]
  {
    seq(|s|, i requires 0 <= i < |s| => if s[i] == c then d else s[i])
  }

  lemma {:induction false} ReplaceAllIsReplaceChar(s: string, c: char, d: char)
    ensures ReplaceAll(s, [c], [d]) == ReplaceChar(s, c, d)
  {
    if s != "" {
      ReplaceAllIsReplaceChar(s[1..], c, d);
      assert ReplaceChar(s, c, d) == [if s[0] == c then d else s[0]] + ReplaceChar(s[1..], c, d);
    }
  }

  lemma ReplaceFirst(s: string, c: char, new_: string)
    requires s != ""
    ensures ReplaceAll(s, [c], new_) == (if s[0] == c then new_ else [s[0]]) + ReplaceAll(s[1..], [c], new_)
  {
  }

  lemma ConcatAssociative(a: string, b: string, c: string)
    ensures a + b + c == a + (b + c)
  {
  }

  lemma {:induction false} ReplaceConcat(a: string, b: string, c: char, new_: string)
    ensures ReplaceAll(a + b, [c], new_) == ReplaceAll(a, [c], new_) + ReplaceAll(b, [c], new_)
  {
    if a == "" {
      assert a + b == b;
    } else {
      assert (a + b)[1..] == a[1..] + b;
      ReplaceConcat(a[1..], b, c, new_);
      ReplaceFirst(a, c, new_);
      ReplaceFirst(a + b, c, new_);
      ConcatAssociative(if a[0] == c then new_ else [a[0]], ReplaceAll(a[1..], [c], new_), ReplaceAll(b, [c], new_));
    }
  }

  // ----- tokens of texts that differ in white space only

  lemma {:induction false} WordLengthPointwise(s: string, t: string)
    requires |s| == |t| && forall i :: 0 <= i < |s| ==> s[i] == t[i] || (IsSpace(s[i]) && IsSpace(t[i]))
    ensures WordLength(s) == WordLength(t)
  {
    if s != "" {
      WordLengthPointwise(s[1..], t[1..]);
    }
  }

  /** Which white space stands between tokens does not matter. */
  lemma {:induction false} FieldsPointwise(s: string, t: string)
    requires |s| == |t| && forall i :: 0 <= i < |s| ==> s[i] == t[i] || (IsSpace(s[i]) && IsSpace(t[i]))
    ensures Fields(s) == Fields(t)
    decreases |s|
  {
    if s != "" {
      if IsSpace(s[0]) {
        FieldsPointwise(s[1..], t[1..]);
      } else {
        var n := WordLength(s);
        WordLengthPointwise(s, t);
        assert s[..n] == t[..n];
        FieldsPointwise(s[n..], t[n..]);
      }
    }
  }

  predicate StartsWord(s: string) {
    s != "" && !IsSpace(s[0])
  }

  /** A byte in front that is not white space lengthens the first token or is one of its own. */
  lemma FieldsCons(c: char, s: string)
    requires !IsSpace(c)
    ensures Fields([c] + s) ==
      if StartsWord(s) then [[c] + s[..WordLength(s)]] + Fields(s[WordLength(s)..]) else [[c]] + Fields(s)
  {
    var t := [c] + s;
    assert t[1..] == s;
    var n := WordLength(s);
    assert t[..1 + n] == [c] + s[..n] && t[1 + n..] == s[n..];
    if !StartsWord(s) {
      assert s[..0] == "" && s[0..] == s;
    }
  }

  lemma FieldsConsAlike(c: char, s: string, t: string)
    requires Fields(s) == Fields(t) && StartsWord(s) == StartsWord(t)
    ensures Fields([c] + s) == Fields([c] + t)
  {
    if IsSpace(c) {
      assert ([c] + s)[1..] == s && ([c] + t)[1..] == t;
    } else {
      FieldsCons(c, s);
      FieldsCons(c, t);
      if StartsWord(s) {
        assert Fields(s)[0] == s[..WordLength(s)] && Fields(t)[0] == t[..WordLength(t)];
        assert Fields(s)[1..] == Fields(s[WordLength(s)..]) && Fields(t)[1..] == Fields(t[WordLength(t)..]);
      }
    }
  }

  // ----- what the operations mean

  /** Codes of the six white-space bytes. */
  predicate Separates(c: char) {
    c as int in [9, 10, 11, 12, 13, 32]
  }

  predicate Printable(s: string) {
    s != "" && forall i :: 0 <= i < |s| ==> s[i] > ' '
  }

  lemma SeparatedWords(a: string, c: char, b: string)
    requires IsWord(a) && IsWord(b) && IsSpace(c)
    ensures Fields(a + [c] + b) == [a, b]
  {
    var rest := [c] + b;
    assert a + [c] + b == a + rest && rest[1..] == b;
    FieldsAppend(a, rest);
    FieldsOfWord(a);
    FieldsOfWord(b);
  }

  /** Each of the six separates tokens, and no other byte does. */
  lemma SixSeparators(a: string, c: char, b: string)
    requires Printable(a) && Printable(b)
    ensures Fields(a + [c] + b) == if Separates(c) then [a, b] else [a + [c] + b]
  {
    if Separates(c) {
      SeparatedWords(a, c, b);
    } else {
      FieldsOfWord(a + [c] + b);
    }
  }

  lemma {:induction false} TrimLeftDrops(l: string, t: string)
    requires forall c :: c in l ==> Separates(c)
    requires t != "" ==> !Separates(t[0])
    ensures TrimLeft(l + t) == t
  {
    if l == "" {
      assert l + t == t;
    } else {
      assert l[0] in l && (l + t)[1..] == l[1..] + t;
      TrimLeftDrops(l[1..], t);
    }
  }

  lemma {:induction false} TrimRightDrops(t: string, r: string)
    requires forall c :: c in r ==> Separates(c)
    requires t != "" ==> !Separates(t[|t| - 1])
    ensures TrimRight(t + r) == t
  {
    if r == "" {
      assert t + r == t;
    } else {
      assert r[|r| - 1] in r && (t + r)[..|t + r| - 1] == t + r[..|r| - 1];
      TrimRightDrops(t, r[..|r| - 1]);
    }
  }

  /** Trimming takes the white space off both ends and nothing else. */
  lemma TrimSpaceMeaning(l: string, t: string, r: string)
    requires forall c :: c in l + r ==> Separates(c)
    requires t != "" ==> !Separates(t[0]) && !Separates(t[|t| - 1])
    ensures TrimSpace(l + t + r) == t
  {
    assert forall c :: c in l || c in r ==> c in l + r;
    if t == "" {
      TrimLeftDrops(l + r, "");
      assert l + r + "" == l + r == l + t + r;
    } else {
      assert l + t + r == l + (t + r);
      TrimLeftDrops(l, t + r);
      TrimRightDrops(t, r);
    }
  }

  /** Folding turns the 26 capitals into small letters and touches nothing else. */
  lemma LowerMeaning(s: string)
    ensures Lower("ABCDEFGHIJKLMNOPQRSTUVWXYZ") == "abcdefghijklmnopqrstuvwxyz"
    ensures Upper("abcdefghijklmnopqrstuvwxyz") == "ABCDEFGHIJKLMNOPQRSTUVWXYZ"
    ensures Lower(Upper(s)) == Lower(s) && Upper(Lower(s)) == Upper(s)
    ensures Lower(s) == s <==> forall i :: 0 <= i < |s| ==> !(65 <= s[i] as int <= 90)
  {
    if Lower(s) == s {
      forall i | 0 <= i < |s| ensures !(65 <= s[i] as int <= 90) {
        assert Lower(s)[i] == s[i];
      }
    }
  }

  /** Splitting cuts at every separator and loses nothing. */
  lemma {:induction false} SplitMeaning(s: string, c: char)
    ensures Join(Split(s, c), [c]) == s
    ensures forall p :: p in Split(s, c) ==> c !in p
    decreases |s|
  {
    var n := IndexOf(s, c);
    if n < |s| {
      SplitMeaning(s[n + 1..], c);
      var rest := Split(s[n + 1..], c);
      assert ([s[..n]] + rest)[1..] == rest;
      assert s == s[..n] + [c] + s[n + 1..];
    } else {
      assert s[..n] == s;
    }
  }

  lemma FieldsAppendWord(s: string, t: string)
    requires IsWord(t)
    ensures Fields(s + " " + t) == Fields(s) + [t]
  {
    var rest := " " + t;
    assert s + " " + t == s + rest && rest[1..] == t;
    FieldsAppend(s, rest);
    FieldsOfWord(t);
  }

  lemma {:induction false} JoinAppend(ts: seq<string>, t: string, sep: string)
    ensures Join(ts + [t], sep) == if ts == [] then t else Join(ts, sep) + sep + t
  {
    if |ts| > 0 {
      assert (ts + [t])[1..] == ts[1..] + [t];
      JoinAppend(ts[1..], t, sep);
      if |ts| > 1 {
        var head, tail := ts[0] + sep, Join(ts[1..], sep);
        ConcatAssociative(head, tail, sep);
        ConcatAssociative(head, tail + sep, t);
      }
    }
  }

  lemma {:induction false} JoinEmpty(ts: seq<string>, sep: string)
    requires forall t :: t in ts ==> t != ""
    ensures Join(ts, sep) == "" <==> ts == []
  {
    if ts != [] {
      assert ts[0] in ts;
    }
  }
}

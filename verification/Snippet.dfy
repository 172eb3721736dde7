/** Collapsing blanks in scraped snippets (engine/scraper.go, cleanSnippet): the loop that halves runs
    of blanks against a single pass over the text. */
module Snippet {
  import opened Text

  const BLANK: string := " "
  const BLANKS: string := "  "

  /** The text after newlines became blanks and carriage returns went away. */
  function Flattened(s: string): string {
    ReplaceAll(ReplaceAll(s, "\n", BLANK), "\r", "")
  }

  /** The single pass: one blank for each run of blanks. */
  function Collapse(s: string): string {
    if s == "" then ""
    else if BLANKS <= s then Collapse(s[1..])
    else [s[0]] + Collapse(s[1..])
  }

  /** Length of the leading run of blanks. */
  function LeadingRun(s: string): nat {
    if s == "" || s[0] != ' ' then 0 else 1 + LeadingRun(s[1..])
  }

  function Max(a: nat, b: nat): nat {
    if a >= b then a else b
  }

  function LongestRun(s: string): nat {
    if s == "" then 0 else Max(LeadingRun(s), LongestRun(s[1..]))
  }

  function HalfUp(k: nat): nat {
    (k + 1) / 2
  }

  /** The least n with 2^n >= k. */
  function CeilLog2(k: nat): nat {
    if k <= 1 then 0 else 1 + CeilLog2(HalfUp(k))
  }

  function Pow2(n: nat): nat {
    if n == 0 then 1 else 2 * Pow2(n - 1)
  }

  lemma {:induction false} CeilLog2IsLeast(k: nat, n: nat)
    ensures k <= Pow2(CeilLog2(k))
    ensures k <= Pow2(n) ==> CeilLog2(k) <= n
  {
    if k > 1 {
      CeilLog2IsLeast(HalfUp(k), if n == 0 then 0 else n - 1);
    }
  }

  function Halve(s: string): string {
    ReplaceAll(s, BLANKS, BLANK)
  }

  function VisibleBytes(s: string): string {
    if s == "" then "" else (if IsSpace(s[0]) then "" else [s[0]]) + VisibleBytes(s[1..])
  }

  // ----- one round of the loop

  lemma {:induction false} HalveLeadingRun(s: string)
    ensures LeadingRun(Halve(s)) == HalfUp(LeadingRun(s))
    decreases |s|
  {
    if s != "" && s[0] == ' ' {
      if BLANKS <= s {
        HalveLeadingRun(s[2..]);
        assert s[1..][1..] == s[2..];
        assert Halve(s) == BLANK + Halve(s[2..]);
        assert Halve(s)[1..] == Halve(s[2..]);
      } else {
        HalveLeadingRun(s[1..]);
        assert |s| > 1 ==> s[1] != ' ';
        assert Halve(s)[1..] == Halve(s[1..]);
      }
    }
  }

  lemma RunAfterTwo(s: string)
    requires BLANKS <= s
    ensures LeadingRun(s) == 2 + LeadingRun(s[2..])
    ensures LongestRun(s) == Max(LeadingRun(s), LongestRun(s[2..]))
  {
    assert s[1..][1..] == s[2..];
    assert LeadingRun(s) == 1 + LeadingRun(s[1..]);
    assert LongestRun(s[1..]) == Max(LeadingRun(s[1..]), LongestRun(s[2..]));
  }

  /** One round turns every run of k blanks into one of k/2, rounded up. */
  lemma {:induction false} HalveLongestRun(s: string)
    ensures LongestRun(Halve(s)) == HalfUp(LongestRun(s))
    decreases |s|
  {
    if s != "" {
      HalveLeadingRun(s);
      if BLANKS <= s {
        HalveLongestRun(s[2..]);
        RunAfterTwo(s);
        assert Halve(s)[1..] == Halve(s[2..]);
      } else {
        HalveLongestRun(s[1..]);
        assert Halve(s)[1..] == Halve(s[1..]);
      }
    }
  }

  /** A blank in front of a text and in front of its halved form collapse alike. */
  lemma CollapseOneBlank(t: string)
    requires Collapse(Halve(t)) == Collapse(t)
    ensures Collapse(BLANK + Halve(t)) == Collapse(BLANK + t)
  {
    HalveLeadingRun(t);
    var h := Halve(t);
    assert (BLANK + h)[1..] == h && (BLANK + t)[1..] == t;
    assert LeadingRun(t) > 0 <==> t != "" && t[0] == ' ';
    assert LeadingRun(h) > 0 <==> h != "" && h[0] == ' ';
    assert BLANKS <= BLANK + h <==> h != "" && h[0] == ' ';
    assert BLANKS <= BLANK + t <==> t != "" && t[0] == ' ';
  }

  /** Halving leaves what a single pass would produce. */
  lemma {:induction false} CollapseAfterHalve(s: string)
    ensures Collapse(Halve(s)) == Collapse(s)
    decreases |s|
  {
    if s != "" {
      if BLANKS <= s {
        var tail := s[2..];
        CollapseAfterHalve(tail);
        assert s[1..] == BLANK + tail;
        assert Halve(s) == BLANK + Halve(tail);
        CollapseOneBlank(tail);
      } else {
        CollapseAfterHalve(s[1..]);
        assert Halve(s) == [s[0]] + Halve(s[1..]);
        if s[0] == ' ' {
          HalveLeadingRun(s[1..]);
          assert !(BLANKS <= Halve(s)) by {
            assert s[1..] == "" || s[1] != ' ';
          }
        } else {
          assert !(BLANKS <= Halve(s));
        }
        assert Halve(s)[1..] == Halve(s[1..]);
      }
    }
  }

  lemma {:induction false} ContainsIffRun(s: string)
    ensures Contains(s, BLANKS) <==> LongestRun(s) >= 2
  {
    if s != "" {
      ContainsIffRun(s[1..]);
      assert BLANKS <= s <==> LeadingRun(s) >= 2 by {
        if |s| > 1 {
          assert LeadingRun(s) >= 2 <==> s[0] == ' ' && LeadingRun(s[1..]) >= 1;
        }
      }
    }
  }

  lemma {:induction false} CollapseNothing(s: string)
    requires LongestRun(s) <= 1
    ensures Collapse(s) == s
  {
    if s != "" {
      CollapseNothing(s[1..]);
      ContainsIffRun(s);
    }
  }

  /** The loop makes exactly as many rounds as the longest run has binary digits to lose, and ends
      with the result of the single pass. */
  method CleanSnippet(snippet: string) returns (r: string, ghost rounds: nat)
    ensures r == TrimSpace(Collapse(Flattened(snippet)))
    ensures rounds == CeilLog2(LongestRun(Flattened(snippet)))
  {
    var s := ReplaceAll(snippet, "\n", " ");
    s := ReplaceAll(s, "\r", "");
    rounds := 0;
    while Contains(s, "  ")
      invariant Collapse(s) == Collapse(Flattened(snippet))
      invariant rounds + CeilLog2(LongestRun(s)) == CeilLog2(LongestRun(Flattened(snippet)))
      decreases LongestRun(s)
    {
      ContainsIffRun(s);
      HalveLongestRun(s);
      CollapseAfterHalve(s);
      s := ReplaceAll(s, "  ", " ");
      rounds := rounds + 1;
    }
    ContainsIffRun(s);
    CollapseNothing(s);
    r := TrimSpace(s);
  }

  // ----- what cleaning means

  function Clean(s: string): string {
    TrimSpace(Collapse(Flattened(s)))
  }

  lemma {:induction false} VisibleConcat(a: string, b: string)
    ensures VisibleBytes(a + b) == VisibleBytes(a) + VisibleBytes(b)
  {
    if a == "" {
      assert a + b == b;
    } else {
      assert (a + b)[1..] == a[1..] + b;
      VisibleConcat(a[1..], b);
    }
  }

  lemma {:induction false} VisibleAfterReplace(s: string, old_: string, new_: string)
    requires old_ != "" && VisibleBytes(old_) == VisibleBytes(new_) == ""
    ensures VisibleBytes(ReplaceAll(s, old_, new_)) == VisibleBytes(s)
    decreases |s|
  {
    if s != "" {
      if old_ <= s {
        VisibleAfterReplace(s[|old_|..], old_, new_);
        VisibleConcat(new_, ReplaceAll(s[|old_|..], old_, new_));
        VisibleConcat(old_, s[|old_|..]);
        assert s == old_ + s[|old_|..];
      } else {
        VisibleAfterReplace(s[1..], old_, new_);
      }
    }
  }

  lemma {:induction false} VisibleAfterCollapse(s: string)
    ensures VisibleBytes(Collapse(s)) == VisibleBytes(s)
  {
    if s != "" {
      VisibleAfterCollapse(s[1..]);
    }
  }

  lemma {:induction false} VisibleAfterTrimLeft(s: string)
    ensures VisibleBytes(TrimLeft(s)) == VisibleBytes(s)
  {
    if s != "" && IsSpace(s[0]) {
      VisibleAfterTrimLeft(s[1..]);
    }
  }

  lemma {:induction false} VisibleAfterTrimRight(s: string)
    ensures VisibleBytes(TrimRight(s)) == VisibleBytes(s)
  {
    if s != "" && IsSpace(s[|s| - 1]) {
      VisibleAfterTrimRight(s[..|s| - 1]);
      VisibleConcat(s[..|s| - 1], s[|s| - 1..]);
      assert s == s[..|s| - 1] + s[|s| - 1..];
    }
  }

  /** The bytes that are not white space survive, in order. */
  lemma CleanKeepsVisibleBytes(s: string)
    ensures VisibleBytes(Clean(s)) == VisibleBytes(s)
  {
    VisibleAfterReplace(s, "\n", BLANK);
    VisibleAfterReplace(ReplaceAll(s, "\n", BLANK), "\r", "");
    VisibleAfterCollapse(Flattened(s));
    VisibleAfterTrimLeft(Collapse(Flattened(s)));
    VisibleAfterTrimRight(TrimLeft(Collapse(Flattened(s))));
  }

  /** Tidy text: no newline, no carriage return, no two blanks in a row, no white space at either end. */
  predicate Tidy(s: string) {
    '\n' !in s && '\r' !in s && LongestRun(s) <= 1 && (s != "" ==> !IsSpace(s[0]) && !IsSpace(s[|s| - 1]))
  }

  lemma {:induction false} ReplaceRemoves(s: string, c: char, new_: string)
    requires c !in new_
    ensures c !in ReplaceAll(s, [c], new_)
    decreases |s|
  {
    if s != "" {
      ReplaceRemoves(s[1..], c, new_);
    }
  }

  lemma {:induction false} ReplaceKeepsOut(s: string, c: char, d: char, new_: string)
    requires d !in s && d !in new_
    ensures d !in ReplaceAll(s, [c], new_)
    decreases |s|
  {
    if s != "" {
      ReplaceKeepsOut(s[1..], c, d, new_);
    }
  }

  lemma {:induction false} ReplaceAbsent(s: string, c: char, new_: string)
    requires c !in s
    ensures ReplaceAll(s, [c], new_) == s
  {
    if s != "" {
      assert s[0] in s;
      ReplaceAbsent(s[1..], c, new_);
    }
  }

  lemma {:induction false} CollapseProperties(s: string)
    ensures LongestRun(Collapse(s)) <= 1
    ensures LeadingRun(Collapse(s)) == if LeadingRun(s) == 0 then 0 else 1
    ensures forall c :: c in Collapse(s) ==> c in s
  {
    if s != "" {
      CollapseProperties(s[1..]);
      assert LeadingRun(s) >= 2 <==> BLANKS <= s;
      if !(BLANKS <= s) {
        assert Collapse(s)[1..] == Collapse(s[1..]);
      }
    }
  }

  lemma {:induction false} TrimLeftKeeps(s: string)
    ensures LongestRun(TrimLeft(s)) <= LongestRun(s)
    ensures forall c :: c in TrimLeft(s) ==> c in s
  {
    if s != "" && IsSpace(s[0]) {
      TrimLeftKeeps(s[1..]);
    }
  }

  lemma {:induction false} PrefixRuns(p: string, s: string)
    requires p <= s
    ensures LeadingRun(p) <= LeadingRun(s) && LongestRun(p) <= LongestRun(s)
  {
    if p != "" {
      assert p[1..] <= s[1..];
      PrefixRuns(p[1..], s[1..]);
    }
  }

  lemma CleanIsTidy(s: string)
    ensures Tidy(Clean(s))
  {
    var flat := Flattened(s);
    ReplaceRemoves(s, '\n', BLANK);
    ReplaceKeepsOut(ReplaceAll(s, "\n", BLANK), '\r', '\n', "");
    ReplaceRemoves(ReplaceAll(s, "\n", BLANK), '\r', "");
    CollapseProperties(flat);
    TrimLeftKeeps(Collapse(flat));
    var left := TrimLeft(Collapse(flat));
    PrefixRuns(TrimRight(left), left);
    TrimSpaceEnds(Collapse(flat));
  }

  lemma TidyIsClean(s: string)
    requires Tidy(s)
    ensures Clean(s) == s
  {
    ReplaceAbsent(s, '\n', BLANK);
    ReplaceAbsent(s, '\r', "");
    CollapseNothing(s);
  }

  /** Cleaning reaches a fixpoint at once; the cleaned texts are exactly the tidy ones. */
  lemma CleanIdempotent(s: string)
    ensures Clean(Clean(s)) == Clean(s)
    ensures Clean(s) == s <==> Tidy(s)
  {
    CleanIsTidy(s);
    TidyIsClean(Clean(s));
    if Tidy(s) {
      TidyIsClean(s);
    }
  }

  // ----- words

  lemma {:induction false} CollapseKeepsWords(s: string)
    ensures Fields(Collapse(s)) == Fields(s) && StartsWord(Collapse(s)) == StartsWord(s)
  {
    if s != "" {
      CollapseKeepsWords(s[1..]);
      assert s == [s[0]] + s[1..];
      if BLANKS <= s {
        assert Fields(s) == Fields(s[1..]) && !StartsWord(s[1..]);
      } else {
        FieldsConsAlike(s[0], Collapse(s[1..]), s[1..]);
      }
    }
  }

  /** The words of a snippet stay as they are and apart, wherever lines end. */
  lemma CleanKeepsWords(s: string)
    requires '\r' !in s
    ensures Fields(Clean(s)) == Fields(s)
  {
    var blanked := ReplaceAll(s, "\n", BLANK);
    ReplaceAllIsReplaceChar(s, '\n', ' ');
    FieldsPointwise(s, blanked);
    ReplaceKeepsOut(s, '\n', '\r', BLANK);
    ReplaceAbsent(blanked, '\r', "");
    CollapseKeepsWords(blanked);
    FieldsTrimSpace(Collapse(blanked));
  }

  /** Carriage returns vanish without a trace. */
  lemma ReturnsVanish(a: string, b: string)
    ensures Clean(a + "\r" + b) == Clean(a + b)
  {
    ReplaceConcat(a + "\r", b, '\n', BLANK);
    ReplaceConcat(a, "\r", '\n', BLANK);
    ReplaceConcat(a, b, '\n', BLANK);
    var x, y := ReplaceAll(a, "\n", BLANK), ReplaceAll(b, "\n", BLANK);
    assert ReplaceAll("\r", "\n", BLANK) == "\r";
    ReplaceConcat(x + "\r", y, '\r', "");
    ReplaceConcat(x, "\r", '\r', "");
    ReplaceConcat(x, y, '\r', "");
    assert ReplaceAll("\r", "\r", "") == "";
    assert Flattened(a + "\r" + b) == ReplaceAll(x, "\r", "") + "" + ReplaceAll(y, "\r", "");
    assert Flattened(a + b) == ReplaceAll(x, "\r", "") + ReplaceAll(y, "\r", "");
    assert ReplaceAll(x, "\r", "") + "" == ReplaceAll(x, "\r", "");
  }
}

/** Query operators (engine/parser.go): engine, category and language overrides, excluded terms, and
    the query that is left. */
module QueryParser {
  import opened Text
  import opened Seqs
  import opened EngineRegistry

  datatype ParsedQuery = ParsedQuery(
    cleanQuery: string,
    engineOverrides: seq<string>,
    categoryOverride: string,
    languageOverride: string,
    excludedTerms: seq<string>)

  function Shortcuts(): map<string, string> {
    map["g" := "google", "b" := "bing", "ddg" := "duckduckgo", "br" := "brave",
        "w" := "wikipedia", "gk" := "grokipedia", "y" := "yahoo"]
  }

  function Resolve(name: string): string {
    if name in Shortcuts() then Shortcuts()[name] else name
  }

  /** The one class of a token, given the registered engine names. */
  datatype TokenClass =
    | CategoryOp(name: string)
    | EngineOp(name: string)
    | LanguageOp(name: string)
    | ExcludeOp(name: string)
    | Plain

  function Classify(t: string, names: set<string>): TokenClass {
    if "!!" <= t && |t| > 2 then CategoryOp(Lower(t[2..]))
    else if "!" <= t && |t| > 1 && Resolve(Lower(t[1..])) in names then EngineOp(Resolve(Lower(t[1..])))
    else if ":" <= t && |t| > 1 then LanguageOp(Lower(t[1..]))
    else if "-" <= t && |t| > 1 then ExcludeOp(Lower(t[1..]))
    else Plain
  }

  function Rank(c: TokenClass): (r: nat)
    ensures r < 5
  {
    match c
    case Plain => 0
    case EngineOp(_) => 1
    case CategoryOp(_) => 2
    case LanguageOp(_) => 3
    case ExcludeOp(_) => 4
  }

  predicate IsOp(t: string, names: set<string>, sample: TokenClass) {
    Rank(Classify(t, names)) == Rank(sample)
  }

  /** The tokens of one class, in order. */
  function OfClass(ts: seq<string>, names: set<string>, sample: TokenClass): seq<string> {
    Filter(t => IsOp(t, names, sample), ts)
  }

  function Operands(ts: seq<string>, names: set<string>): (r: seq<string>)
    requires forall t :: t in ts ==> !Classify(t, names).Plain?
    ensures |r| == |ts|
    ensures forall i :: 0 <= i < |ts| ==> r[i] == Classify(ts[i], names).name
  {
    seq(|ts|, i requires 0 <= i < |ts| => Classify(ts[i], names).name)
  }

  function LastOr(ts: seq<string>, default: string): string {
    if ts == [] then default else ts[|ts| - 1]
  }

  /** The parse of a token list, class by class. */
  datatype Scan = Scan(
    clean: seq<string>, engines: seq<string>, category: string, language: string, exclusions: seq<string>)

  function ScanTokens(ts: seq<string>, names: set<string>): Scan {
    Scan(OfClass(ts, names, Plain),
         Operands(OfClass(ts, names, EngineOp("")), names),
         LastOr(Operands(OfClass(ts, names, CategoryOp("")), names), ""),
         LastOr(Operands(OfClass(ts, names, LanguageOp("")), names), ""),
         Operands(OfClass(ts, names, ExcludeOp("")), names))
  }

  function Parse(query: string, names: set<string>): ParsedQuery {
    var s := ScanTokens(Fields(query), names);
    ParsedQuery(Join(s.clean, " "), s.engines, s.category, s.language, s.exclusions)
  }

  lemma OfClassAppend(ts: seq<string>, t: string, names: set<string>, sample: TokenClass)
    ensures OfClass(ts + [t], names, sample)
         == OfClass(ts, names, sample) + (if IsOp(t, names, sample) then [t] else [])
  {
    FilterConcat(x => IsOp(x, names, sample), ts, [t]);
  }

  function Extend(s: Scan, t: string, names: set<string>): Scan {
    match Classify(t, names)
    case CategoryOp(name) => s.(category := name)
    case EngineOp(name) => s.(engines := s.engines + [name])
    case LanguageOp(name) => s.(language := name)
    case ExcludeOp(name) => s.(exclusions := s.exclusions + [name])
    case Plain => s.(clean := s.clean + [t])
  }

  /** The same parse token by token, as the loop does it. */
  function Fold(ts: seq<string>, names: set<string>): Scan {
    if ts == [] then Scan([], [], "", "", [])
    else Extend(Fold(ts[..|ts| - 1], names), ts[|ts| - 1], names)
  }

  lemma OperandsAppend(ts: seq<string>, t: string, names: set<string>)
    requires forall x :: x in ts + [t] ==> !Classify(x, names).Plain?
    ensures forall x :: x in ts ==> !Classify(x, names).Plain?
    ensures Operands(ts + [t], names) == Operands(ts, names) + [Classify(t, names).name]
  {
    assert forall x :: x in ts ==> x in ts + [t];
    assert t in ts + [t];
  }

  lemma OperatorsAppend(ts: seq<string>, t: string, names: set<string>, sample: TokenClass)
    requires !sample.Plain?
    ensures var ops := Operands(OfClass(ts, names, sample), names);
      Operands(OfClass(ts + [t], names, sample), names)
      == if IsOp(t, names, sample) then ops + [Classify(t, names).name] else ops
  {
    OfClassAppend(ts, t, names, sample);
    if IsOp(t, names, sample) {
      OperandsAppend(OfClass(ts, names, sample), t, names);
    }
  }

  lemma ScanAppend(ts: seq<string>, t: string, names: set<string>)
    ensures ScanTokens(ts + [t], names) == Extend(ScanTokens(ts, names), t, names)
  {
    OfClassAppend(ts, t, names, Plain);
    OperatorsAppend(ts, t, names, EngineOp(""));
    OperatorsAppend(ts, t, names, CategoryOp(""));
    OperatorsAppend(ts, t, names, LanguageOp(""));
    OperatorsAppend(ts, t, names, ExcludeOp(""));
  }

  lemma {:induction false} FoldIsScan(ts: seq<string>, names: set<string>)
    ensures Fold(ts, names) == ScanTokens(ts, names)
  {
    if ts != [] {
      FoldIsScan(ts[..|ts| - 1], names);
      ScanAppend(ts[..|ts| - 1], ts[|ts| - 1], names);
      assert ts == ts[..|ts| - 1] + [ts[|ts| - 1]];
    }
  }

  lemma FoldStep(ts: seq<string>, i: nat, names: set<string>)
    requires i < |ts|
    ensures Fold(ts[..i + 1], names) == Extend(Fold(ts[..i], names), ts[i], names)
  {
    assert ts[..i + 1][..i] == ts[..i];
  }

  method ParseQuery(query: string, registry: Registry) returns (r: ParsedQuery)
    ensures r == Parse(query, registry.engines.Keys)
  {
    var tokens := Fields(query);
    var clean: seq<string>, engines: seq<string>, exclusions: seq<string> := [], [], [];
    var category, language := "", "";
    var shortcuts := Shortcuts();
    ghost var names := registry.engines.Keys;
    for i := 0 to |tokens|
      invariant Scan(clean, engines, category, language, exclusions) == Fold(tokens[..i], names)
    {
      var token := tokens[i];
      FoldStep(tokens, i, names);
      if "!!" <= token && |token| > 2 {
        category := Lower(token[2..]);
        continue;
      }
      if "!" <= token && |token| > 1 {
        var engName := Lower(token[1..]);
        if engName in shortcuts {
          engName := shortcuts[engName];
        }
        if registry.Exists(engName) {
          engines := engines + [engName];
          continue;
        }
      }
      if ":" <= token && |token| > 1 {
        language := Lower(token[1..]);
        continue;
      }
      if "-" <= token && |token| > 1 {
        exclusions := exclusions + [Lower(token[1..])];
        continue;
      }
      clean := clean + [token];
    }
    assert tokens[..|tokens|] == tokens;
    FoldIsScan(tokens, names);
    return ParsedQuery(Join(clean, " "), engines, category, language, exclusions);
  }

  lemma LastOperand(ts: seq<string>, names: set<string>)
    requires forall t :: t in ts ==> !Classify(t, names).Plain?
    ensures LastOr(Operands(ts, names), "") == if ts == [] then "" else Classify(ts[|ts| - 1], names).name
  {
  }

  // ----- every token has one class

  function OnlyIf<T>(c: bool, s: seq<T>): seq<T> {
    if c then s else []
  }

  lemma OfClassHead(t: string, tail: seq<string>, names: set<string>, sample: TokenClass)
    ensures OfClass([t] + tail, names, sample)
         == OnlyIf(Rank(Classify(t, names)) == Rank(sample), [t]) + OfClass(tail, names, sample)
  {
    assert ([t] + tail)[1..] == tail;
  }

  lemma InsertInOne<T>(x: seq<T>, k: nat, a: seq<T>, b: seq<T>, c: seq<T>, d: seq<T>, e: seq<T>)
    requires k < 5
    ensures multiset((OnlyIf(k == 0, x) + a) + (OnlyIf(k == 1, x) + b) + (OnlyIf(k == 2, x) + c)
                     + (OnlyIf(k == 3, x) + d) + (OnlyIf(k == 4, x) + e))
         == multiset(x) + multiset(a + b + c + d + e)
  {
  }

  lemma {:induction false} ClassesPartition(ts: seq<string>, names: set<string>)
    ensures multiset(ts) == multiset(
      OfClass(ts, names, Plain) + OfClass(ts, names, EngineOp("")) + OfClass(ts, names, CategoryOp(""))
      + OfClass(ts, names, LanguageOp("")) + OfClass(ts, names, ExcludeOp("")))
  {
    if ts != [] {
      HeadTail(ts);
      var t, tail := ts[0], ts[1..];
      ClassesPartition(tail, names);
      OfClassHead(t, tail, names, Plain);
      OfClassHead(t, tail, names, EngineOp(""));
      OfClassHead(t, tail, names, CategoryOp(""));
      OfClassHead(t, tail, names, LanguageOp(""));
      OfClassHead(t, tail, names, ExcludeOp(""));
      InsertInOne([t], Rank(Classify(t, names)),
                  OfClass(tail, names, Plain), OfClass(tail, names, EngineOp("")), OfClass(tail, names, CategoryOp("")),
                  OfClass(tail, names, LanguageOp("")), OfClass(tail, names, ExcludeOp("")));
    }
  }

  // ----- case folding

  lemma ClassifyLower(t: string, names: set<string>)
    ensures Classify(Lower(t), names) == Classify(t, names)
  {
    if |t| > 1 {
      assert Lower(t)[1..] == Lower(t[1..]);
      LowerIdempotent(t[1..]);
      assert t[0] == '!' <==> Lower(t)[0] == '!';
      assert t[1] == '!' <==> Lower(t)[1] == '!';
    }
    if |t| > 2 {
      assert Lower(t)[2..] == Lower(t[2..]);
      LowerIdempotent(t[2..]);
    }
  }

  lemma {:induction false} OfClassLower(ts: seq<string>, names: set<string>, sample: TokenClass)
    ensures OfClass(LowerAll(ts), names, sample) == LowerAll(OfClass(ts, names, sample))
  {
    if ts != [] {
      ClassifyLower(ts[0], names);
      assert LowerAll(ts)[1..] == LowerAll(ts[1..]);
      OfClassLower(ts[1..], names, sample);
    }
  }

  lemma OperandsLower(ts: seq<string>, names: set<string>)
    requires forall t :: t in ts ==> !Classify(t, names).Plain?
    ensures forall t :: t in LowerAll(ts) ==> !Classify(t, names).Plain?
    ensures Operands(LowerAll(ts), names) == Operands(ts, names)
  {
    forall i | 0 <= i < |ts|
      ensures Classify(LowerAll(ts)[i], names) == Classify(ts[i], names)
    {
      ClassifyLower(ts[i], names);
    }
  }

  lemma ScanLower(ts: seq<string>, names: set<string>)
    ensures ScanTokens(LowerAll(ts), names) == ScanTokens(ts, names).(clean := LowerAll(ScanTokens(ts, names).clean))
  {
    OfClassLower(ts, names, Plain);
    OfClassLower(ts, names, EngineOp(""));
    OfClassLower(ts, names, CategoryOp(""));
    OfClassLower(ts, names, LanguageOp(""));
    OfClassLower(ts, names, ExcludeOp(""));
    OperandsLower(OfClass(ts, names, EngineOp("")), names);
    OperandsLower(OfClass(ts, names, CategoryOp("")), names);
    OperandsLower(OfClass(ts, names, LanguageOp("")), names);
    OperandsLower(OfClass(ts, names, ExcludeOp("")), names);
  }

  /** Parsing the trimmed, case-folded query finds the same operators and the case-folded rest. */
  lemma ParseNormalized(query: string, names: set<string>)
    ensures Parse(Lower(TrimSpace(query)), names)
         == Parse(query, names).(cleanQuery := Lower(Parse(query, names).cleanQuery))
  {
    FieldsLower(TrimSpace(query));
    FieldsTrimSpace(query);
    ScanLower(Fields(query), names);
    assert Lower(" ") == " ";
    LowerJoin(ScanTokens(Fields(query), names).clean, " ");
  }

  /** Queries that are equal up to outer white space and case carry the same operators. */
  lemma ParseRespectsNormalization(a: string, b: string, names: set<string>)
    requires Lower(TrimSpace(a)) == Lower(TrimSpace(b))
    ensures var p, q := Parse(a, names), Parse(b, names);
      && p.engineOverrides == q.engineOverrides
      && p.categoryOverride == q.categoryOverride
      && p.languageOverride == q.languageOverride
      && p.excludedTerms == q.excludedTerms
      && Lower(p.cleanQuery) == Lower(q.cleanQuery)
  {
    ParseNormalized(a, names);
    ParseNormalized(b, names);
  }

  // ----- fixpoint

  lemma {:induction false} PlainTokensScan(ts: seq<string>, names: set<string>)
    requires forall t :: t in ts ==> Classify(t, names).Plain?
    ensures ScanTokens(ts, names) == Scan(ts, [], "", "", [])
  {
    if ts != [] {
      HeadTail(ts);
      PlainTokensScan(ts[1..], names);
    }
  }

  /** What is left after parsing parses to itself, with no operator in it. */
  lemma CleanQueryIsFixpoint(query: string, names: set<string>)
    ensures var clean := Parse(query, names).cleanQuery;
      Parse(clean, names) == ParsedQuery(clean, [], "", "", [])
  {
    var ts := ScanTokens(Fields(query), names).clean;
    FieldsAreWords(query);
    FieldsJoin(ts);
    PlainTokensScan(ts, names);
  }

  /** Excluded terms are case-folded and not empty. */
  lemma ExcludedTermsAreFolded(query: string, names: set<string>)
    ensures forall t :: t in Parse(query, names).excludedTerms ==> t != "" && Lower(t) == t
  {
    var ts := OfClass(Fields(query), names, ExcludeOp(""));
    assert forall t :: t in ts ==> IsOp(t, names, ExcludeOp(""));
    forall i | 0 <= i < |ts|
      ensures Operands(ts, names)[i] != "" && Lower(Operands(ts, names)[i]) == Operands(ts, names)[i]
    {
      assert ts[i] in ts && IsOp(ts[i], names, ExcludeOp(""));
      LowerIdempotent(ts[i][1..]);
    }
  }

  // ----- what each sign does

  /** The query with one more plain token. */
  function PlainAdded(clean: string, t: string): string {
    if clean == "" then t else clean + " " + t
  }

  lemma CleanTokensAreWords(ts: seq<string>, names: set<string>)
    requires forall t :: t in ts ==> IsWord(t)
    ensures Join(OfClass(ts, names, Plain), " ") == "" <==> OfClass(ts, names, Plain) == []
  {
    JoinEmpty(OfClass(ts, names, Plain), " ");
  }

  /** One more token at the end of a query is taken into its parse. */
  lemma AppendToken(q: string, t: string, c: TokenClass, names: set<string>)
    requires IsWord(t) && Classify(t, names) == c
    ensures var p := Parse(q, names);
      Parse(q + " " + t, names) ==
        match c
        case CategoryOp(name) => p.(categoryOverride := name)
        case EngineOp(name) => p.(engineOverrides := p.engineOverrides + [name])
        case LanguageOp(name) => p.(languageOverride := name)
        case ExcludeOp(name) => p.(excludedTerms := p.excludedTerms + [name])
        case Plain => p.(cleanQuery := PlainAdded(p.cleanQuery, t))
  {
    FieldsAppendWord(q, t);
    FieldsAreWords(q);
    ScanAppend(Fields(q), t, names);
    CleanTokensAreWords(Fields(q), names);
    JoinAppend(ScanTokens(Fields(q), names).clean, t, " ");
  }

  /** A query without tokens asks for nothing. */
  lemma NoTokens(q: string, names: set<string>)
    requires forall i :: 0 <= i < |q| ==> Separates(q[i])
    ensures Parse(q, names) == ParsedQuery("", [], "", "", [])
  {
    assert q + "" + "" == q;
    TrimSpaceMeaning(q, "", "");
    FieldsTrimSpace(q);
  }

  lemma SpacedSigns(q: string, w: string)
    ensures q + " " + ("!!" + w) == q + " !!" + w
    ensures q + " " + ("!" + w) == q + " !" + w
    ensures q + " " + (":" + w) == q + " :" + w
    ensures q + " " + ("-" + w) == q + " -" + w
  {
  }

  lemma TwoSignsClass(w: string, names: set<string>)
    requires IsWord(w)
    ensures Classify("!!" + w, names) == CategoryOp(Lower(w))
  {
    var t := "!!" + w;
    assert t[..2] == "!!" && t[2..] == w;
  }

  /** "!!w" chooses the category and does nothing else. */
  lemma CategorySign(q: string, w: string, names: set<string>)
    requires IsWord(w)
    ensures Parse(q + " !!" + w, names) == Parse(q, names).(categoryOverride := Lower(w))
  {
    TwoSignsClass(w, names);
    AppendToken(q, "!!" + w, CategoryOp(Lower(w)), names);
    SpacedSigns(q, w);
  }

  lemma ColonClass(w: string, names: set<string>)
    requires IsWord(w)
    ensures Classify(":" + w, names) == LanguageOp(Lower(w))
  {
    var t := ":" + w;
    assert t[0] == ':' && t[1..] == w;
    assert !("!" <= t) && !("!!" <= t);
  }

  /** ":w" chooses the language and does nothing else. */
  lemma LanguageSign(q: string, w: string, names: set<string>)
    requires IsWord(w)
    ensures Parse(q + " :" + w, names) == Parse(q, names).(languageOverride := Lower(w))
  {
    ColonClass(w, names);
    AppendToken(q, ":" + w, LanguageOp(Lower(w)), names);
    SpacedSigns(q, w);
  }

  lemma MinusClass(w: string, names: set<string>)
    requires IsWord(w)
    ensures Classify("-" + w, names) == ExcludeOp(Lower(w))
  {
    var t := "-" + w;
    assert t[0] == '-' && t[1..] == w;
    assert !("!" <= t) && !("!!" <= t) && !(":" <= t);
  }

  /** "-w" excludes w and does nothing else. */
  lemma ExclusionSign(q: string, w: string, names: set<string>)
    requires IsWord(w)
    ensures var p := Parse(q, names);
      Parse(q + " -" + w, names) == p.(excludedTerms := p.excludedTerms + [Lower(w)])
  {
    MinusClass(w, names);
    AppendToken(q, "-" + w, ExcludeOp(Lower(w)), names);
    SpacedSigns(q, w);
  }

  /** The seven short names of engines, written out. */
  lemma ShortNames(w: string)
    ensures Resolve(w) ==
      if w == "g" then "google" else if w == "b" then "bing" else if w == "ddg" then "duckduckgo"
      else if w == "br" then "brave" else if w == "w" then "wikipedia" else if w == "gk" then "grokipedia"
      else if w == "y" then "yahoo" else w
  {
    assert Shortcuts().Keys == {"g", "b", "ddg", "br", "w", "gk", "y"};
  }

  lemma OneSignClass(w: string, names: set<string>)
    requires IsWord(w) && (w[0] != '!' || w == "!")
    ensures Classify("!" + w, names) == if Resolve(Lower(w)) in names then EngineOp(Resolve(Lower(w))) else Plain
  {
    var t := "!" + w;
    assert t[0] == '!' && t[1..] == w;
    assert !("!!" <= t && |t| > 2) by {
      assert t[1] == w[0];
    }
    assert !(":" <= t) && !("-" <= t);
  }

  lemma AppendEngine(q: string, w: string, name: string, names: set<string>)
    requires IsWord(w) && (w[0] != '!' || w == "!") && name == Resolve(Lower(w))
    ensures var p := Parse(q, names);
      Parse(q + " !" + w, names) ==
        if name in names then p.(engineOverrides := p.engineOverrides + [name])
        else p.(cleanQuery := PlainAdded(p.cleanQuery, "!" + w))
  {
    OneSignClass(w, names);
    AppendToken(q, "!" + w, if name in names then EngineOp(name) else Plain, names);
    SpacedSigns(q, w);
  }

  /** "!w" chooses an engine, by its name or one of the seven short names, when it is registered, and
      is a plain token otherwise. */
  lemma EngineSign(q: string, w: string, names: set<string>)
    requires IsWord(w) && (w[0] != '!' || w == "!")
    ensures var p, l := Parse(q, names), Lower(w);
      var name :=
        if l == "g" then "google" else if l == "b" then "bing" else if l == "ddg" then "duckduckgo"
        else if l == "br" then "brave" else if l == "w" then "wikipedia" else if l == "gk" then "grokipedia"
        else if l == "y" then "yahoo" else l;
      Parse(q + " !" + w, names) ==
        if name in names then p.(engineOverrides := p.engineOverrides + [name])
        else p.(cleanQuery := if p.cleanQuery == "" then "!" + w else p.cleanQuery + " " + ("!" + w))
  {
    ShortNames(Lower(w));
    AppendEngine(q, w, Resolve(Lower(w)), names);
  }

  /** A token without a sign, or a sign alone, is part of the query. */
  lemma NoSign(q: string, t: string, names: set<string>)
    requires IsWord(t) && (|t| == 1 || (t[0] != '!' && t[0] != ':' && t[0] != '-'))
    ensures var p := Parse(q, names);
      Parse(q + " " + t, names) == p.(cleanQuery := if p.cleanQuery == "" then t else p.cleanQuery + " " + t)
  {
    assert Classify(t, names) == Plain;
    AppendToken(q, t, Plain, names);
  }
}

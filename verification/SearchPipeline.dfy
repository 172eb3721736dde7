/** One search from request to response (server/handlers.go, SearchSingle): parse, normalize, look up
    the cache, route, fan out, aggregate, write the cache. */
module SearchPipeline {
  import opened Options
  import opened Text
  import opened Seqs
  import opened TtlCache
  import opened RateLimiter
  import opened CacheKey
  import opened ByteOrder
  import opened EngineRegistry
  import opened QueryParser
  import opened Merging
  import opened Ranking
  import opened Scoring
  import FanOut

  datatype Request = Request(query: string, categories: seq<string>, locale: string, language: string, country: string)

  datatype SearchResponse = SearchResponse(
    query: string, results: seq<SearchResult>, unresponsive: seq<(string, string)>,
    metrics: seq<FanOut.Metric>, count: nat)

  datatype SearchError = MissingQuery | EmptyAfterParsing

  // ----- what a request asks for

  /** The request after parsing and normalization. */
  datatype Plan = Plan(
    rawQuery: string, parsed: ParsedQuery, categories: seq<string>, locale: string, language: string, country: string)

  datatype Planned = Rejected(error: SearchError) | Accepted(plan: Plan)

  predicate NotEmpty(t: string) {
    t != ""
  }

  function NonEmpty(ts: seq<string>): seq<string> {
    Filter(NotEmpty, ts)
  }

  function CleanCategories(categories: seq<string>): seq<string> {
    var cleaned := NonEmpty(NormalAll(categories));
    if cleaned == [] then ["general"] else cleaned
  }

  function OrElse(s: string, default: string): string {
    if s == "" then default else s
  }

  function Language(req: Request, override_: string): string {
    var locale := TrimSpace(req.locale);
    var fromLocale := if locale == "" then "" else Lower(Split(locale, '-')[0]);
    OrElse(override_, OrElse(OrElse(TrimSpace(req.language), fromLocale), "en"))
  }

  function Country(req: Request): string {
    var locale := TrimSpace(req.locale);
    var parts := Split(locale, '-');
    var fromLocale := if locale != "" && |parts| > 1 then Upper(parts[1]) else "";
    OrElse(OrElse(TrimSpace(req.country), fromLocale), "US")
  }

  function Locale(req: Request, language: string): string {
    var locale := TrimSpace(req.locale);
    var parts := Split(locale, '-');
    language + "-" + (if locale != "" && |parts| > 1 then parts[1] else Country(req))
  }

  function PlanOf(req: Request, names: set<string>): Planned {
    var rawQuery := TrimSpace(req.query);
    if rawQuery == "" then Rejected(MissingQuery)
    else
      var parsed := Parse(rawQuery, names);
      if parsed.cleanQuery == "" then Rejected(EmptyAfterParsing)
      else
        var categories :=
          if parsed.categoryOverride != "" then [parsed.categoryOverride] else CleanCategories(req.categories);
        var language := Language(req, parsed.languageOverride);
        Accepted(Plan(rawQuery, parsed, categories, Locale(req, language), language, Country(req)))
  }

  function KeyOfPlan(p: Plan): KeyParts {
    KeyParts(p.rawQuery, p.categories, p.language, p.country, p.locale)
  }

  // ----- equal keys, equal searches

  lemma NormalIdempotent(s: string)
    ensures Normal(Normal(s)) == Normal(s)
  {
    LowerTrimSpace(TrimSpace(s));
    TrimSpaceIdempotent(s);
    LowerIdempotent(TrimSpace(s));
  }

  lemma WordIsNormal(t: string)
    requires forall i :: 0 <= i < |t| ==> !IsSpace(t[i])
    ensures TrimSpace(t) == t
  {
  }

  lemma CategoryTokenIsNormal(t: string, names: set<string>)
    requires IsWord(t) && Classify(t, names).CategoryOp?
    ensures Normal(Classify(t, names).name) == Classify(t, names).name
  {
    WordIsNormal(t[2..]);
    NormalIdempotent(t[2..]);
  }

  lemma OverrideIsNormal(query: string, names: set<string>)
    ensures Normal(Parse(query, names).categoryOverride) == Parse(query, names).categoryOverride
  {
    var ts := OfClass(Fields(query), names, CategoryOp(""));
    FieldsAreWords(query);
    LastOperand(ts, names);
    if ts != [] {
      var t := ts[|ts| - 1];
      assert t in ts && IsOp(t, names, CategoryOp("")) && t in Fields(query);
      CategoryTokenIsNormal(t, names);
    }
  }

  lemma {:induction false} NormalsFiltered(ts: seq<string>)
    ensures NormalAll(NonEmpty(NormalAll(ts))) == NonEmpty(NormalAll(ts))
  {
    forall i | 0 <= i < |NonEmpty(NormalAll(ts))|
      ensures Normal(NonEmpty(NormalAll(ts))[i]) == NonEmpty(NormalAll(ts))[i]
    {
      assert NonEmpty(NormalAll(ts))[i] in NormalAll(ts);
      var k :| 0 <= k < |ts| && NormalAll(ts)[k] == NonEmpty(NormalAll(ts))[i];
      NormalIdempotent(ts[k]);
    }
  }

  lemma DefaultCategoryNormal()
    ensures NormalAll(["general"]) == ["general"]
  {
    NormalOfPlain("general");
  }

  lemma CleanCategoriesNormal(categories: seq<string>)
    ensures CleanCategories(categories) != [] && NormalAll(CleanCategories(categories)) == CleanCategories(categories)
  {
    if NonEmpty(NormalAll(categories)) == [] {
      DefaultCategoryNormal();
    } else {
      NormalsFiltered(categories);
    }
  }

  /** The categories of a plan are in normal form already. */
  lemma PlanCategoriesNormal(req: Request, names: set<string>)
    requires PlanOf(req, names).Accepted?
    ensures var cats := PlanOf(req, names).plan.categories; cats != [] && NormalAll(cats) == cats
  {
    var cats := PlanOf(req, names).plan.categories;
    var override_ := Parse(TrimSpace(req.query), names).categoryOverride;
    if override_ != "" {
      OverrideIsNormal(TrimSpace(req.query), names);
      assert cats == [override_];
    } else {
      CleanCategoriesNormal(req.categories);
      assert cats == CleanCategories(req.categories);
    }
  }

  /** The same engine overrides and exclusions, the same query up to case, the same options up to case,
      and, over any state of the registry, the same engines. */
  ghost predicate SameSearch(p: Plan, q: Plan) {
    && p.parsed.engineOverrides == q.parsed.engineOverrides
    && p.parsed.excludedTerms == q.parsed.excludedTerms
    && p.parsed.languageOverride == q.parsed.languageOverride
    && Lower(p.parsed.cleanQuery) == Lower(q.parsed.cleanQuery)
    && Lower(p.language) == Lower(q.language)
    && Lower(p.country) == Lower(q.country)
    && Lower(p.locale) == Lower(q.locale)
    && multiset(p.categories) == multiset(q.categories)
    && forall view, n :: Concerned(view, p.categories, n) <==> Concerned(view, q.categories, n)
  }

  lemma SameConcern(cats: seq<string>, other: seq<string>)
    requires multiset(cats) == multiset(other)
    ensures forall view, n :: Concerned(view, cats, n) <==> Concerned(view, other, n)
  {
    forall cat: string ensures cat in cats <==> cat in other {
      assert cat in multiset(cats) <==> cat in multiset(other);
    }
  }

  /** Two requests with the same cache key ask for the same search. */
  lemma CacheHitIsSound(a: Request, b: Request, names: set<string>)
    requires PlanOf(a, names).Accepted? && PlanOf(b, names).Accepted?
    requires var p, q := PlanOf(a, names).plan, PlanOf(b, names).plan;
      Separable(KeyOfPlan(p)) && Separable(KeyOfPlan(q)) && RawKey(KeyOfPlan(p)) == RawKey(KeyOfPlan(q))
    ensures SameSearch(PlanOf(a, names).plan, PlanOf(b, names).plan)
  {
    var p, q := PlanOf(a, names).plan, PlanOf(b, names).plan;
    RawKeyDecidesMeaning(KeyOfPlan(p), KeyOfPlan(q));
    ParseRespectsNormalization(p.rawQuery, q.rawQuery, names);
    PlanCategoriesNormal(a, names);
    PlanCategoriesNormal(b, names);
    SameConcern(p.categories, q.categories);
  }

  /** For the exclusions alone, commas in categories do no harm. */
  lemma SameKeySameExclusions(a: Request, b: Request, names: set<string>)
    requires PlanOf(a, names).Accepted? && PlanOf(b, names).Accepted?
    requires var p, q := PlanOf(a, names).plan, PlanOf(b, names).plan;
      BarFree(KeyOfPlan(p)) && BarFree(KeyOfPlan(q)) && RawKey(KeyOfPlan(p)) == RawKey(KeyOfPlan(q))
    ensures PlanOf(a, names).plan.parsed.excludedTerms == PlanOf(b, names).plan.parsed.excludedTerms
  {
    var p, q := PlanOf(a, names).plan, PlanOf(b, names).plan;
    RawKeyDecidesParts(KeyOfPlan(p), KeyOfPlan(q));
    ParseRespectsNormalization(p.rawQuery, q.rawQuery, names);
  }

  lemma PairsStay(x: string, y: string)
    requires Normal(x) == x != "" && Normal(y) == y != ""
    ensures CleanCategories([x, y]) == [x, y]
  {
    assert NormalAll([x, y]) == [x, y] && [x, y][1..] == [y];
    assert Filter(NotEmpty, [y]) == [y];
  }

  lemma SingleStays(x: string)
    requires Normal(x) == x != ""
    ensures CleanCategories([x]) == [x]
  {
    assert NormalAll([x]) == [x] && [x][1..] == [];
    assert Filter(NotEmpty, [x]) == [x];
  }

  lemma PlanWithCategories(req: Request, names: set<string>, categories: seq<string>)
    requires PlanOf(req, names).Accepted? && PlanOf(req, names).plan.parsed.categoryOverride == ""
    ensures PlanOf(req.(categories := categories), names)
         == Accepted(PlanOf(req, names).plan.(categories := CleanCategories(categories)))
  {
  }

  lemma CommaPlans(req: Request, names: set<string>, x: string, y: string)
    requires Normal(x) == x != "" && Normal(y) == y != ""
    requires PlanOf(req, names).Accepted? && PlanOf(req, names).plan.parsed.categoryOverride == ""
    ensures var plan := PlanOf(req, names).plan;
      && PlanOf(req.(categories := [x + "," + y]), names) == Accepted(plan.(categories := [x + "," + y]))
      && PlanOf(req.(categories := [x, y]), names) == Accepted(plan.(categories := [x, y]))
  {
    NormalAround(x, ',', y);
    assert x + [','] + y == x + "," + y;
    SingleStays(x + "," + y);
    PairsStay(x, y);
    PlanWithCategories(req, names, [x + "," + y]);
    PlanWithCategories(req, names, [x, y]);
  }

  lemma CommaPlansCollide(plan: Plan, x: string, y: string)
    requires Normal(x) == x && Normal(y) == y && Leq(x, y)
    ensures RawKey(KeyOfPlan(plan.(categories := [x + "," + y]))) == RawKey(KeyOfPlan(plan.(categories := [x, y])))
  {
    CommaCollides(plan.rawQuery, x, y, plan.language, plan.country, plan.locale);
  }

  lemma OnlySecondConcerned(x: string, y: string, engine: string)
    ensures var view := map[engine := EngineInfo([x], false, 0, "")];
      !Concerned(view, [x + "," + y], engine) && Concerned(view, [x, y], engine)
  {
    assert x in [x] && x in [x, y];
    assert |x + "," + y| > |x|;
  }

  /** With a comma in a category that is false of accepted requests: whatever the query, as long as it does
      not override the category, a request for the category "x,y" has the key of one for x and y, and
      an engine of category x is concerned by the second one only. */
  lemma CommaRequestsCollide(req: Request, names: set<string>, x: string, y: string, engine: string)
    requires Normal(x) == x != "" && Normal(y) == y != "" && Leq(x, y)
    requires PlanOf(req, names).Accepted? && PlanOf(req, names).plan.parsed.categoryOverride == ""
    ensures var one, two := PlanOf(req.(categories := [x + "," + y]), names), PlanOf(req.(categories := [x, y]), names);
      var view := map[engine := EngineInfo([x], false, 0, "")];
      && one.Accepted? && two.Accepted?
      && RawKey(KeyOfPlan(one.plan)) == RawKey(KeyOfPlan(two.plan))
      && !Concerned(view, one.plan.categories, engine) && Concerned(view, two.plan.categories, engine)
  {
    CommaPlans(req, names, x, y);
    CommaPlansCollide(PlanOf(req, names).plan, x, y);
    OnlySecondConcerned(x, y, engine);
  }

  predicate LowerWord(w: string) {
    IsWord(w) && Lower(w) == w
  }

  lemma LowerWordIsNormal(w: string)
    requires LowerWord(w)
    ensures TrimSpace(w) == w && Normal(w) == w
  {
    WordIsNormal(w);
  }

  lemma ExclusionClass(t: string, names: set<string>)
    requires LowerWord(t)
    ensures Classify("-" + t, names) == ExcludeOp(t)
  {
    var token := "-" + t;
    assert token[0] == '-' && token[1..] == t;
    assert !("!" <= token) && !("!!" <= token) && !(":" <= token) && "-" <= token;
  }

  lemma ExclusionScan(t: string, names: set<string>)
    requires LowerWord(t)
    ensures ScanTokens(["a", "-" + t], names) == Scan(["a"], [], "", "", [t])
  {
    var ts := ["a", "-" + t];
    ExclusionClass(t, names);
    assert Classify("a", names) == Plain;
    assert ts[..1] == ["a"] && ["a"][..0] == [];
    assert Fold(["a"], names) == Scan(["a"], [], "", "", []);
    FoldIsScan(ts, names);
  }

  lemma QueryOfExcluding(t: string)
    requires LowerWord(t)
    ensures TrimSpace("a -" + t) == "a -" + t && Normal("a -" + t) == "a -" + t
  {
    var query := "a -" + t;
    assert !IsSpace(query[0]) && !IsSpace(query[|query| - 1]);
    LowerConcat("a -", t);
    assert Lower("a -") == "a -";
  }

  lemma FieldsOfExcluding(t: string)
    requires LowerWord(t)
    ensures Fields("a -" + t) == ["a", "-" + t]
  {
    var ts := ["a", "-" + t];
    assert ts[1..] == ["-" + t];
    assert Join(ts, " ") == "a" + " " + ("-" + t) == "a -" + t;
    FieldsJoin(ts);
  }

  lemma ExclusionParses(t: string, names: set<string>)
    requires LowerWord(t)
    ensures Parse("a -" + t, names) == ParsedQuery("a", [], "", "", [t])
  {
    FieldsOfExcluding(t);
    ExclusionScan(t, names);
  }

  lemma SplitLocale()
    ensures TrimSpace("zz-us") == "zz-us" && Split("zz-us", '-') == ["zz", "us"]
  {
    assert IndexOf("zz-us", '-') == 2 by {
      assert "zz-us"[2] == '-';
    }
    assert "zz-us"[..2] == "zz" && "zz-us"[3..] == "us";
    assert IndexOf("us", '-') == 2;
  }

  /** A request that excludes t, with its language and country. */
  function Excluding(t: string, category: string, language: string, country: string): Request {
    Request("a -" + t, [category], "zz-us", language, country)
  }

  lemma CountryOfExcluding(req: Request)
    requires LowerWord(req.country)
    ensures Country(req) == req.country
  {
    LowerWordIsNormal(req.country);
  }

  lemma LanguageOfExcluding(req: Request)
    requires LowerWord(req.language)
    ensures Language(req, "") == req.language
  {
    LowerWordIsNormal(req.language);
  }

  lemma LocaleOfExcluding(req: Request)
    requires req.locale == "zz-us"
    ensures Locale(req, req.language) == req.language + "-us"
  {
    SplitLocale();
  }

  function ExcludingPlan(t: string, category: string, language: string, country: string): Plan {
    Plan("a -" + t, ParsedQuery("a", [], "", "", [t]), [category], language + "-us", language, country)
  }

  lemma PlanOfExcluding(t: string, category: string, language: string, country: string, names: set<string>)
    requires LowerWord(t) && LowerWord(category) && LowerWord(language) && LowerWord(country)
    ensures PlanOf(Excluding(t, category, language, country), names)
         == Accepted(ExcludingPlan(t, category, language, country))
  {
    QueryOfExcluding(t);
    ExclusionParses(t, names);
    LowerWordIsNormal(category);
    SingleStays(category);
    CountryOfExcluding(Excluding(t, category, language, country));
    LanguageOfExcluding(Excluding(t, category, language, country));
    LocaleOfExcluding(Excluding(t, category, language, country));
  }

  lemma LowerWordsAround(x: string, y: string)
    requires LowerWord(x) && LowerWord(y)
    ensures LowerWord(x + "|" + y)
  {
    LowerConcat(x + "|", y);
    LowerConcat(x, "|");
    assert Lower("|") == "|";
  }

  lemma RawKeyOfExcluding(t: string, category: string, language: string, country: string)
    requires LowerWord(t) && LowerWord(category) && LowerWord(language) && LowerWord(country)
    ensures RawKey(KeyOfPlan(ExcludingPlan(t, category, language, country)))
         == "gosearx:" + ("a -" + t) + "|" + category + "|" + language + "|" + country + "|" + (language + "-us")
  {
    QueryOfExcluding(t);
    LowerWordIsNormal(category);
    SingleJoins(category);
    LowerConcat(language, "-us");
    assert Lower("-us") == "-us";
  }

  lemma ShiftedBars(t: string, c: string, x: string, y: string, u: string)
    ensures "gosearx:" + ("a -" + t) + "|" + c + "|" + (x + "|" + y) + "|" + u + "|" + ((x + "|" + y) + "-us")
         == "gosearx:" + ("a -" + (t + "|" + c)) + "|" + x + "|" + y + "|" + (u + "|" + x) + "|" + (y + "-us")
  {
    var head := "gosearx:a -" + t + "|" + c + "|" + x + "|" + y + "|" + u + "|" + x + "|" + y + "-us";
    assert "gosearx:" + ("a -" + t) + "|" + c + "|" + (x + "|" + y) + "|" + u + "|" + ((x + "|" + y) + "-us") == head;
    assert "gosearx:" + ("a -" + (t + "|" + c)) + "|" + x + "|" + y + "|" + (u + "|" + x) + "|" + (y + "-us") == head;
  }

  lemma BarPlansCollide(t: string, c: string, x: string, y: string, u: string)
    requires LowerWord(t) && LowerWord(c) && LowerWord(x) && LowerWord(y) && LowerWord(u)
    ensures RawKey(KeyOfPlan(ExcludingPlan(t, c, x + "|" + y, u)))
         == RawKey(KeyOfPlan(ExcludingPlan(t + "|" + c, x, y, u + "|" + x)))
  {
    LowerWordsAround(x, y);
    LowerWordsAround(t, c);
    LowerWordsAround(u, x);
    RawKeyOfExcluding(t, c, x + "|" + y, u);
    RawKeyOfExcluding(t + "|" + c, x, y, u + "|" + x);
    ShiftedBars(t, c, x, y, u);
  }

  lemma BarPlans(t: string, c: string, x: string, y: string, u: string, names: set<string>)
    requires LowerWord(t) && LowerWord(c) && LowerWord(x) && LowerWord(y) && LowerWord(u)
    ensures PlanOf(Excluding(t, c, x + "|" + y, u), names) == Accepted(ExcludingPlan(t, c, x + "|" + y, u))
    ensures PlanOf(Excluding(t + "|" + c, x, y, u + "|" + x), names)
         == Accepted(ExcludingPlan(t + "|" + c, x, y, u + "|" + x))
  {
    LowerWordsAround(x, y);
    LowerWordsAround(t, c);
    LowerWordsAround(u, x);
    PlanOfExcluding(t, c, x + "|" + y, u, names);
    PlanOfExcluding(t + "|" + c, x, y, u + "|" + x, names);
  }

  /** With a bar in language or country that is false even of exclusions: for all lower-case words these
      two requests are accepted and have one raw key, and exclude different terms. */
  lemma BarRequestsCollide(t: string, c: string, x: string, y: string, u: string, names: set<string>)
    requires LowerWord(t) && LowerWord(c) && LowerWord(x) && LowerWord(y) && LowerWord(u)
    ensures var one := PlanOf(Excluding(t, c, x + "|" + y, u), names);
      var two := PlanOf(Excluding(t + "|" + c, x, y, u + "|" + x), names);
      && one.Accepted? && two.Accepted?
      && RawKey(KeyOfPlan(one.plan)) == RawKey(KeyOfPlan(two.plan))
      && one.plan.parsed.excludedTerms == [t] && two.plan.parsed.excludedTerms == [t + "|" + c]
      && one.plan.parsed.excludedTerms != two.plan.parsed.excludedTerms
  {
    BarPlans(t, c, x, y, u, names);
    BarPlansCollide(t, c, x, y, u);
    assert |[t][0]| != |[t + "|" + c][0]|;
  }

  // ----- exactly which separators do harm

  /** Bars, and commas in categories, are in the key only if they are admitted. */
  predicate Admitted(p: KeyParts, bars: bool, commas: bool) {
    (bars || BarFree(p)) && (commas || CommaFree(p))
  }

  /** Two accepted requests with admitted keys share their raw key. */
  predicate ShareKey(a: Request, b: Request, names: set<string>, bars: bool, commas: bool) {
    && PlanOf(a, names).Accepted? && PlanOf(b, names).Accepted?
    && Admitted(KeyOfPlan(PlanOf(a, names).plan), bars, commas)
    && Admitted(KeyOfPlan(PlanOf(b, names).plan), bars, commas)
    && RawKey(KeyOfPlan(PlanOf(a, names).plan)) == RawKey(KeyOfPlan(PlanOf(b, names).plan))
  }

  lemma ShareByPlans(a: Request, b: Request, p: Plan, q: Plan, names: set<string>, bars: bool, commas: bool)
    requires PlanOf(a, names) == Accepted(p) && PlanOf(b, names) == Accepted(q)
    requires Admitted(KeyOfPlan(p), bars, commas) && Admitted(KeyOfPlan(q), bars, commas)
    requires RawKey(KeyOfPlan(p)) == RawKey(KeyOfPlan(q))
    ensures ShareKey(a, b, names, bars, commas)
  {
  }

  predicate SameExclusions(a: Request, b: Request, names: set<string>) {
    && PlanOf(a, names).Accepted? && PlanOf(b, names).Accepted?
    && PlanOf(a, names).plan.parsed.excludedTerms == PlanOf(b, names).plan.parsed.excludedTerms
  }

  ghost predicate SameRequest(a: Request, b: Request, names: set<string>) {
    && PlanOf(a, names).Accepted? && PlanOf(b, names).Accepted?
    && SameSearch(PlanOf(a, names).plan, PlanOf(b, names).plan)
  }

  ghost predicate ExclusionSafe(names: set<string>, bars: bool, commas: bool) {
    forall a, b :: ShareKey(a, b, names, bars, commas) ==> SameExclusions(a, b, names)
  }

  ghost predicate SearchSafe(names: set<string>, bars: bool, commas: bool) {
    forall a, b :: ShareKey(a, b, names, bars, commas) ==> SameRequest(a, b, names)
  }

  lemma BarsAdmitted(t: string, category: string, language: string, country: string, commas: bool)
    requires ',' !in category
    ensures Admitted(KeyOfPlan(ExcludingPlan(t, category, language, country)), true, commas)
  {
  }

  lemma BarsShareKey(t: string, c: string, x: string, y: string, u: string, names: set<string>, commas: bool)
    requires LowerWord(t) && LowerWord(c) && LowerWord(x) && LowerWord(y) && LowerWord(u)
    requires ',' !in c && ',' !in x
    ensures ShareKey(Excluding(t, c, x + "|" + y, u), Excluding(t + "|" + c, x, y, u + "|" + x), names, true, commas)
  {
    var a, b := Excluding(t, c, x + "|" + y, u), Excluding(t + "|" + c, x, y, u + "|" + x);
    BarPlans(t, c, x, y, u, names);
    BarPlansCollide(t, c, x, y, u);
    BarsAdmitted(t, c, x + "|" + y, u, commas);
    BarsAdmitted(t + "|" + c, x, y, u + "|" + x, commas);
    ShareByPlans(a, b, ExcludingPlan(t, c, x + "|" + y, u), ExcludingPlan(t + "|" + c, x, y, u + "|" + x),
                 names, true, commas);
  }

  lemma BarsExcludeDifferently(t: string, c: string, x: string, y: string, u: string, names: set<string>)
    requires LowerWord(t) && LowerWord(c) && LowerWord(x) && LowerWord(y) && LowerWord(u)
    ensures !SameExclusions(Excluding(t, c, x + "|" + y, u), Excluding(t + "|" + c, x, y, u + "|" + x), names)
  {
    BarPlans(t, c, x, y, u, names);
    assert |[t][0]| != |[t + "|" + c][0]|;
  }

  lemma ExclusionUnsafe(a: Request, b: Request, names: set<string>, bars: bool, commas: bool)
    requires ShareKey(a, b, names, bars, commas) && !SameExclusions(a, b, names)
    ensures !ExclusionSafe(names, bars, commas)
  {
  }

  lemma BarsDoHarm(t: string, c: string, x: string, y: string, u: string, names: set<string>, commas: bool)
    requires LowerWord(t) && LowerWord(c) && LowerWord(x) && LowerWord(y) && LowerWord(u)
    requires ',' !in c && ',' !in x
    ensures !ExclusionSafe(names, true, commas)
  {
    var a, b := Excluding(t, c, x + "|" + y, u), Excluding(t + "|" + c, x, y, u + "|" + x);
    BarsShareKey(t, c, x, y, u, names, commas);
    BarsExcludeDifferently(t, c, x, y, u, names);
    ExclusionUnsafe(a, b, names, true, commas);
  }

  /** One raw key means one set of exclusions if and only if bars are kept out of it. */
  lemma ExclusionSafeIffNoBars(names: set<string>, bars: bool, commas: bool)
    ensures ExclusionSafe(names, bars, commas) <==> !bars
  {
    if bars {
      BarsDoHarm("t", "c", "x", "y", "u", names, commas);
    } else {
      forall a, b | ShareKey(a, b, names, bars, commas)
        ensures SameExclusions(a, b, names)
      {
        SameKeySameExclusions(a, b, names);
      }
    }
  }

  lemma DifferentConcern(p: Plan, q: Plan, engine: string, view: map<string, EngineInfo>)
    requires Concerned(view, p.categories, engine) != Concerned(view, q.categories, engine)
    ensures !SameSearch(p, q)
  {
  }

  lemma CommasAdmitted(plan: Plan, x: string, y: string)
    requires BarFree(KeyOfPlan(plan)) && '|' !in x && '|' !in y
    ensures Admitted(KeyOfPlan(plan.(categories := [x + "," + y])), false, true)
    ensures Admitted(KeyOfPlan(plan.(categories := [x, y])), false, true)
  {
  }

  lemma SearchUnsafe(a: Request, b: Request, names: set<string>, bars: bool, commas: bool)
    requires ShareKey(a, b, names, bars, commas) && !SameRequest(a, b, names)
    ensures !SearchSafe(names, bars, commas)
  {
  }

  lemma DifferentRequests(a: Request, b: Request, p: Plan, q: Plan, names: set<string>)
    requires PlanOf(a, names) == Accepted(p) && PlanOf(b, names) == Accepted(q) && !SameSearch(p, q)
    ensures !SameRequest(a, b, names)
  {
  }

  lemma DifferentSearches(
    a: Request, b: Request, p: Plan, q: Plan, engine: string, view: map<string, EngineInfo>,
    names: set<string>, bars: bool, commas: bool)
    requires PlanOf(a, names) == Accepted(p) && PlanOf(b, names) == Accepted(q)
    requires Admitted(KeyOfPlan(p), bars, commas) && Admitted(KeyOfPlan(q), bars, commas)
    requires RawKey(KeyOfPlan(p)) == RawKey(KeyOfPlan(q))
    requires Concerned(view, p.categories, engine) != Concerned(view, q.categories, engine)
    ensures !SearchSafe(names, bars, commas)
  {
    ShareByPlans(a, b, p, q, names, bars, commas);
    DifferentConcern(p, q, engine, view);
    DifferentRequests(a, b, p, q, names);
    SearchUnsafe(a, b, names, bars, commas);
  }

  lemma CommasDoHarm(req: Request, plan: Plan, names: set<string>, x: string, y: string)
    requires Normal(x) == x != "" && Normal(y) == y != "" && Leq(x, y) && '|' !in x && '|' !in y
    requires PlanOf(req, names) == Accepted(plan) && plan.parsed.categoryOverride == "" && BarFree(KeyOfPlan(plan))
    ensures !SearchSafe(names, false, true)
  {
    var a, b := req.(categories := [x + "," + y]), req.(categories := [x, y]);
    var p, q := plan.(categories := [x + "," + y]), plan.(categories := [x, y]);
    CommaPlans(req, names, x, y);
    CommaPlansCollide(plan, x, y);
    CommasAdmitted(plan, x, y);
    OnlySecondConcerned(x, y, "");
    DifferentSearches(a, b, p, q, "", map["" := EngineInfo([x], false, 0, "")], names, false, true);
  }

  lemma ExcludingBarFree(t: string, category: string, language: string, country: string)
    requires '|' !in category && '|' !in language && '|' !in country
    ensures BarFree(KeyOfPlan(ExcludingPlan(t, category, language, country)))
  {
  }

  lemma SomeCommasDoHarm(t: string, c: string, x: string, u: string, names: set<string>)
    requires LowerWord(t) && LowerWord(c) && LowerWord(x) && LowerWord(u)
    requires '|' !in c && '|' !in x && '|' !in u
    ensures !SearchSafe(names, false, true)
  {
    PlanOfExcluding(t, c, x, u, names);
    ExcludingBarFree(t, c, x, u);
    LowerWordIsNormal(c);
    LeqTotal(c, c);
    CommasDoHarm(Excluding(t, c, x, u), ExcludingPlan(t, c, x, u), names, c, c);
  }

  lemma UnsafeWithCommas(names: set<string>)
    ensures !SearchSafe(names, false, true)
  {
    SomeCommasDoHarm("t", "c", "x", "u", names);
  }

  lemma SearchSafeShrinks(names: set<string>, bars: bool, commas: bool)
    requires SearchSafe(names, bars, commas)
    ensures bars ==> ExclusionSafe(names, true, commas)
    ensures commas ==> SearchSafe(names, false, true)
  {
    forall a, b | ShareKey(a, b, names, bars, commas)
      ensures SameExclusions(a, b, names)
    {
      assert SameRequest(a, b, names);
    }
    if commas {
      forall a, b | ShareKey(a, b, names, false, true)
        ensures SameRequest(a, b, names)
      {
        assert ShareKey(a, b, names, bars, commas);
      }
    }
  }

  lemma SeparatedIsSafe(a: Request, b: Request, names: set<string>)
    requires ShareKey(a, b, names, false, false)
    ensures SameRequest(a, b, names)
  {
    PlanCategoriesNormal(a, names);
    PlanCategoriesNormal(b, names);
    CacheHitIsSound(a, b, names);
  }

  lemma SafeWithoutSeparators(names: set<string>)
    ensures SearchSafe(names, false, false)
  {
    forall a, b | ShareKey(a, b, names, false, false)
      ensures SameRequest(a, b, names)
    {
      SeparatedIsSafe(a, b, names);
    }
  }

  /** One raw key means one search if and only if both bars and commas are kept out of it. */
  lemma SearchSafeIffNoSeparators(names: set<string>, bars: bool, commas: bool)
    ensures SearchSafe(names, bars, commas) <==> !bars && !commas
  {
    if !bars && !commas {
      SafeWithoutSeparators(names);
    } else {
      ExclusionSafeIffNoBars(names, true, commas);
      UnsafeWithCommas(names);
      if SearchSafe(names, bars, commas) {
        SearchSafeShrinks(names, bars, commas);
      }
    }
  }

  // ----- what a plan asks for, in terms of the request

  /** The first part of a locale, and whether and what there is between its first and its second '-'. */
  function FirstPart(locale: string): string {
    locale[..IndexOf(locale, '-')]
  }

  predicate HasSecondPart(locale: string) {
    '-' in locale
  }

  function SecondPart(locale: string): string
    requires HasSecondPart(locale)
  {
    var rest := locale[IndexOf(locale, '-') + 1..];
    rest[..IndexOf(rest, '-')]
  }

  lemma SplitInParts(locale: string)
    ensures Split(locale, '-')[0] == FirstPart(locale)
    ensures |Split(locale, '-')| > 1 <==> HasSecondPart(locale)
    ensures HasSecondPart(locale) ==> Split(locale, '-')[1] == SecondPart(locale)
  {
    var n := IndexOf(locale, '-');
    assert locale[..|locale|] == locale;
    if n < |locale| {
      assert locale[n] in locale;
      var rest := locale[n + 1..];
      assert rest[..|rest|] == rest;
    }
  }

  /** The override, or what the request says, or the folded first part of its locale, or "en". */
  predicate LanguageAsked(p: Plan, req: Request) {
    var locale := TrimSpace(req.locale);
    p.language ==
      if p.parsed.languageOverride != "" then p.parsed.languageOverride
      else if TrimSpace(req.language) != "" then TrimSpace(req.language)
      else if FirstPart(locale) != "" then Lower(FirstPart(locale))
      else "en"
  }

  /** What the request says, or the second part of its locale in capitals, or "US". */
  predicate CountryAsked(p: Plan, req: Request) {
    var locale := TrimSpace(req.locale);
    p.country ==
      if TrimSpace(req.country) != "" then TrimSpace(req.country)
      else if HasSecondPart(locale) && SecondPart(locale) != "" then Upper(SecondPart(locale))
      else "US"
  }

  /** The language and the second part of the locale as it stands, or the country. */
  predicate LocaleAsked(p: Plan, req: Request) {
    var locale := TrimSpace(req.locale);
    p.locale == p.language + "-" + (if HasSecondPart(locale) then SecondPart(locale) else p.country)
  }

  /** The requested categories, trimmed and folded, without the empty ones, in their order. */
  function RequestedCategories(categories: seq<string>): seq<string> {
    if categories == [] then []
    else
      var first := Lower(TrimSpace(categories[0]));
      (if first == "" then [] else [first]) + RequestedCategories(categories[1..])
  }

  /** The override alone, or what the request says, or "general". */
  predicate CategoriesAsked(p: Plan, req: Request) {
    p.categories ==
      if p.parsed.categoryOverride != "" then [p.parsed.categoryOverride]
      else if RequestedCategories(req.categories) != [] then RequestedCategories(req.categories)
      else ["general"]
  }

  lemma LanguageWrittenOut(p: Plan, req: Request)
    requires p.language == Language(req, p.parsed.languageOverride)
    ensures LanguageAsked(p, req)
  {
    SplitInParts(TrimSpace(req.locale));
  }

  lemma CountryWrittenOut(p: Plan, req: Request)
    requires p.country == Country(req)
    ensures CountryAsked(p, req)
  {
    SplitInParts(TrimSpace(req.locale));
  }

  lemma LocaleWrittenOut(p: Plan, req: Request)
    requires p.country == Country(req) && p.locale == Locale(req, p.language)
    ensures LocaleAsked(p, req)
  {
    SplitInParts(TrimSpace(req.locale));
  }

  lemma {:induction false} RequestedAreNonEmpty(categories: seq<string>)
    ensures RequestedCategories(categories) == NonEmpty(NormalAll(categories))
  {
    if categories != [] {
      RequestedAreNonEmpty(categories[1..]);
      assert NormalAll(categories)[1..] == NormalAll(categories[1..]);
    }
  }

  lemma PlanShape(req: Request, names: set<string>)
    requires PlanOf(req, names).Accepted?
    ensures var p := PlanOf(req, names).plan;
      && p.rawQuery == TrimSpace(req.query)
      && p.parsed == Parse(req.query, names)
      && p.language == Language(req, p.parsed.languageOverride)
      && p.country == Country(req)
      && p.locale == Locale(req, p.language)
      && p.categories == if p.parsed.categoryOverride != "" then [p.parsed.categoryOverride]
                         else CleanCategories(req.categories)
  {
    FieldsTrimSpace(req.query);
  }

  /** What every accepted plan asks for: the query as parsed, and the options and categories that its
      operators or else the request itself decide, with "en", "US" and "general" as the last resort. */
  lemma PlanMeaning(req: Request, names: set<string>)
    requires PlanOf(req, names).Accepted?
    ensures var p := PlanOf(req, names).plan;
      && p.rawQuery == TrimSpace(req.query) && p.parsed == Parse(req.query, names)
      && LanguageAsked(p, req) && CountryAsked(p, req) && LocaleAsked(p, req) && CategoriesAsked(p, req)
  {
    var p := PlanOf(req, names).plan;
    PlanShape(req, names);
    LanguageWrittenOut(p, req);
    CountryWrittenOut(p, req);
    LocaleWrittenOut(p, req);
    RequestedAreNonEmpty(req.categories);
  }

  lemma {:induction false} RightKeeps(s: string, i: nat)
    requires i < |s| && !IsSpace(s[i])
    ensures s[i] in TrimRight(s)
  {
    if IsSpace(s[|s| - 1]) {
      RightKeeps(s[..|s| - 1], i);
    }
  }

  lemma {:induction false} LeftKeeps(s: string, i: nat)
    requires i < |s| && !IsSpace(s[i])
    ensures s[i] in TrimLeft(s)
  {
    if IsSpace(s[0]) {
      LeftKeeps(s[1..], i - 1);
    }
  }

  lemma NotAllTrimmed(s: string)
    requires exists i :: 0 <= i < |s| && !Separates(s[i])
    ensures TrimSpace(s) != ""
  {
    var i :| 0 <= i < |s| && !Separates(s[i]);
    LeftKeeps(s, i);
    var j :| 0 <= j < |TrimLeft(s)| && TrimLeft(s)[j] == s[i];
    RightKeeps(TrimLeft(s), j);
  }

  /** A request is refused if and only if its query is white space, or parsing leaves nothing of it. */
  lemma RefusalMeaning(req: Request, names: set<string>)
    ensures PlanOf(req, names) == Rejected(MissingQuery) <==>
      forall i :: 0 <= i < |req.query| ==> Separates(req.query[i])
    ensures PlanOf(req, names) == Rejected(EmptyAfterParsing) <==>
      (exists i :: 0 <= i < |req.query| && !Separates(req.query[i])) && Parse(req.query, names).cleanQuery == ""
  {
    FieldsTrimSpace(req.query);
    if forall i :: 0 <= i < |req.query| ==> Separates(req.query[i]) {
      assert req.query + "" + "" == req.query;
      TrimSpaceMeaning(req.query, "", "");
    } else {
      NotAllTrimmed(req.query);
    }
  }

  lemma PlanFollowsParse(req: Request, query: string, names: set<string>)
    requires PlanOf(req, names).Accepted? && Parse(query, names).cleanQuery == Parse(req.query, names).cleanQuery
    ensures PlanOf(req.(query := query), names).Accepted?
    ensures PlanOf(req.(query := query), names).plan.parsed == Parse(query, names)
  {
    FieldsTrimSpace(req.query);
    FieldsTrimSpace(query);
    NoTokens("", names);
  }

  /** ":w" at the end of an accepted query searches in that language, and its locale too. */
  lemma LanguageTokenDecides(req: Request, w: string, names: set<string>)
    requires PlanOf(req, names).Accepted? && IsWord(w)
    ensures var r := PlanOf(req.(query := req.query + " :" + w), names);
      && r.Accepted? && r.plan.language == Lower(w)
      && |r.plan.locale| > |w| && r.plan.locale[..|w| + 1] == Lower(w) + "-"
  {
    LanguageSign(req.query, w, names);
    PlanFollowsParse(req, req.query + " :" + w, names);
    PlanMeaning(req.(query := req.query + " :" + w), names);
  }

  /** "!!w" at the end of an accepted query searches in that category alone. */
  lemma CategoryTokenDecides(req: Request, w: string, names: set<string>)
    requires PlanOf(req, names).Accepted? && IsWord(w)
    ensures var r := PlanOf(req.(query := req.query + " !!" + w), names);
      r.Accepted? && r.plan.categories == [Lower(w)]
  {
    CategorySign(req.query, w, names);
    PlanFollowsParse(req, req.query + " !!" + w, names);
    PlanMeaning(req.(query := req.query + " !!" + w), names);
  }

  // ----- schedules do not matter

  /** Any two complete runs of the same engines, followed by aggregation with the same exclusions,
      agree on the cards' canonical URLs and summaries and on the ranked (google, score) pairs. */
  lemma SchedulesAreConfluent(
    jobs: seq<FanOut.Job>, schedule: seq<FanOut.Event>, other: seq<FanOut.Event>,
    terms: seq<string>, canon: string -> string, out: seq<SearchResult>, out2: seq<SearchResult>)
    requires FanOut.ValidSchedule(FanOut.Initial(jobs), schedule, jobs)
    requires FanOut.ValidSchedule(FanOut.Initial(jobs), other, jobs)
    requires FanOut.Run(FanOut.Initial(jobs), schedule, jobs).completed == |jobs|
    requires FanOut.Run(FanOut.Initial(jobs), other, jobs).completed == |jobs|
    requires IsAggregate(out, Kept(FanOut.Run(FanOut.Initial(jobs), schedule, jobs).results, terms), canon)
    requires IsAggregate(out2, Kept(FanOut.Run(FanOut.Initial(jobs), other, jobs).results, terms), canon)
    ensures var m := Merge(Kept(FanOut.Run(FanOut.Initial(jobs), schedule, jobs).results, terms), canon);
      var m2 := Merge(Kept(FanOut.Run(FanOut.Initial(jobs), other, jobs).results, terms), canon);
      m.Keys == m2.Keys && forall c :: c in m ==> SameSummary(m[c], m2[c])
    ensures Map(StandingOf, out) == Map(StandingOf, out2)
  {
    var a := FanOut.Run(FanOut.Initial(jobs), schedule, jobs).results;
    var b := FanOut.Run(FanOut.Initial(jobs), other, jobs).results;
    FanOut.CompleteRunsDeliverTheSame(jobs, schedule, other);
    FilterPermutation(Keeps(terms), a, b);
    MergeIgnoresOrder(Kept(a, terms), Kept(b, terms), canon);
    RankingIgnoresOrder(Kept(a, terms), out, Kept(b, terms), out2, canon);
  }

  // ----- routing by override

  /** Enabled, registered engines among the first n overrides, in order, with repetition, that are
      suspended or not at the clock reading taken for their position. */
  function Routed(
    view: map<string, EngineInfo>, overrides: seq<string>, clock: nat -> int, n: nat, suspended: bool): seq<string>
    requires n <= |overrides|
  {
    if n == 0 then []
    else
      var name := overrides[n - 1];
      Routed(view, overrides, clock, n - 1, suspended)
        + (if name in view && !view[name].disabled && Suspended(view[name], clock(n - 1)) == suspended
           then [name] else [])
  }

  lemma {:induction false} RoutedPrefix(
    view: map<string, EngineInfo>, overrides: seq<string>, more: seq<string>, clock: nat -> int, n: nat,
    suspended: bool)
    requires n <= |overrides|
    ensures Routed(view, overrides + more, clock, n, suspended) == Routed(view, overrides, clock, n, suspended)
  {
    if n > 0 {
      RoutedPrefix(view, overrides, more, clock, n - 1, suspended);
    }
  }

  /** One more override routes one more engine, after the others and even if it is routed already, when
      it is registered and enabled: to the suspended ones if the clock reading taken for it lies before
      the end of its suspension, and to the active ones otherwise. */
  lemma OneMoreOverride(view: map<string, EngineInfo>, overrides: seq<string>, name: string, clock: nat -> int)
    ensures var n, more := |overrides|, overrides + [name];
      var enabled := name in view && !view[name].disabled;
      && Routed(view, more, clock, n + 1, true) == Routed(view, overrides, clock, n, true)
           + (if enabled && clock(n) < view[name].suspendedUntil then [name] else [])
      && Routed(view, more, clock, n + 1, false) == Routed(view, overrides, clock, n, false)
           + (if enabled && clock(n) >= view[name].suspendedUntil then [name] else [])
  {
    RoutedPrefix(view, overrides, [name], clock, |overrides|, true);
    RoutedPrefix(view, overrides, [name], clock, |overrides|, false);
  }

  lemma {:induction false} RoutedAreOverrides(
    view: map<string, EngineInfo>, overrides: seq<string>, clock: nat -> int, n: nat, suspended: bool)
    requires n <= |overrides|
    ensures forall name :: name in Routed(view, overrides, clock, n, suspended) ==>
      name in overrides && name in view && !view[name].disabled
  {
    if n > 0 {
      RoutedAreOverrides(view, overrides, clock, n - 1, suspended);
    }
  }

  method RouteOverrides(registry: Registry, overrides: seq<string>, clock: nat -> int)
    returns (active: seq<Engine>, suspended: seq<(string, string)>)
    requires registry.Valid()
    ensures Names(active) == Routed(registry.View(), overrides, clock, |overrides|, false)
    ensures FirstNames(suspended) == Routed(registry.View(), overrides, clock, |overrides|, true)
    ensures forall p :: p in suspended ==> p.0 in registry.engines && p.1 == registry.View()[p.0].reason
  {
    active, suspended := [], [];
    for i := 0 to |overrides|
      invariant Names(active) == Routed(registry.View(), overrides, clock, i, false)
      invariant FirstNames(suspended) == Routed(registry.View(), overrides, clock, i, true)
      invariant forall p :: p in suspended ==> p.0 in registry.engines && p.1 == registry.View()[p.0].reason
    {
      var name := overrides[i];
      if name in registry.engines {
        var eng := registry.engines[name];
        if eng.disabled {
          continue;
        }
        var reason, isSuspended := eng.SuspendedReason(clock(i));
        if isSuspended {
          AppendFirstName(suspended, name, reason);
          suspended := suspended + [(eng.name, reason)];
        } else {
          AppendName(active, eng);
          active := active + [eng];
        }
      }
    }
  }

  // ----- the whole search

  /** The surroundings of one search: clock readings, the answers of the engines (by position in the
      list of selected engines, from query and options), the scheduler, and foreign functions. */
  datatype World = World(
    tGet: int, tSet: int,
    routeClock: string -> int, overrideClock: nat -> int,
    answer: (nat, string, Plan) -> FanOut.Outcome,
    scheduler: seq<FanOut.Job> -> seq<FanOut.Event>,
    ctxErr: string, lateMillis: int,
    canon: string -> string, digest: string -> string)

  /** The schedule is one that the machine can make, up to the end of the collector's loop. */
  ghost predicate Schedules(w: World, jobs: seq<FanOut.Job>) {
    var s := FanOut.Initial(jobs);
    FanOut.ValidSchedule(s, w.scheduler(jobs), jobs) && FanOut.Over(FanOut.Run(s, w.scheduler(jobs), jobs), jobs)
  }

  datatype Reply = Refused(error: SearchError) | Hit(response: SearchResponse) | Fresh(response: SearchResponse)

  function JobsFor(active: seq<Engine>, plan: Plan, w: World): (jobs: seq<FanOut.Job>)
    ensures |jobs| == |active|
    ensures FanOut.JobNames(jobs) == Names(active)
  {
    seq(|active|, i requires 0 <= i < |active| => FanOut.Job(active[i].name, w.answer(i, plan.parsed.cleanQuery, plan)))
  }

  lemma NonEmptyAppend(requested: seq<string>, i: nat)
    requires i < |requested|
    ensures NonEmpty(NormalAll(requested[..i + 1]))
         == NonEmpty(NormalAll(requested[..i]))
              + (if NotEmpty(Normal(requested[i])) then [Normal(requested[i])] else [])
  {
    assert NormalAll(requested[..i + 1]) == NormalAll(requested[..i]) + [Normal(requested[i])];
    FilterConcat(NotEmpty, NormalAll(requested[..i]), [Normal(requested[i])]);
    assert Filter(NotEmpty, [Normal(requested[i])])
        == if NotEmpty(Normal(requested[i])) then [Normal(requested[i])] else [];
  }

  method NormalizeCategories(requested: seq<string>) returns (categories: seq<string>)
    ensures categories == CleanCategories(requested)
  {
    if |requested| == 0 {
      return ["general"];
    }
    var cleaned: seq<string> := [];
    for i := 0 to |requested|
      invariant cleaned == NonEmpty(NormalAll(requested[..i]))
    {
      var trimmed := Lower(TrimSpace(requested[i]));
      NonEmptyAppend(requested, i);
      if trimmed != "" {
        cleaned := cleaned + [trimmed];
      }
    }
    assert requested[..|requested|] == requested;
    categories := cleaned;
    if |categories| == 0 {
      categories := ["general"];
    }
  }

  method NormalizeOptions(req: Request, languageOverride: string)
    returns (locale: string, language: string, country: string)
    ensures language == Language(req, languageOverride) && country == Country(req) && locale == Locale(req, language)
  {
    locale, language, country := TrimSpace(req.locale), TrimSpace(req.language), TrimSpace(req.country);
    var parts := Split(locale, '-');
    if locale != "" {
      if language == "" {
        language := Lower(parts[0]);
      }
      if |parts| > 1 && country == "" {
        country := Upper(parts[1]);
      }
    }
    if language == "" {
      language := "en";
    }
    if country == "" {
      country := "US";
    }
    if languageOverride != "" {
      language := languageOverride;
    }
    if locale != "" && |parts| > 1 {
      locale := language + "-" + parts[1];
    } else {
      locale := language + "-" + country;
    }
  }

  /** Request normalization, as the handler reassigns its variables. */
  method MakePlan(req: Request, registry: Registry) returns (r: Planned)
    ensures r == PlanOf(req, registry.engines.Keys)
  {
    var rawQuery := TrimSpace(req.query);
    if rawQuery == "" {
      return Rejected(MissingQuery);
    }
    var parsed := ParseQuery(rawQuery, registry);
    if parsed.cleanQuery == "" {
      return Rejected(EmptyAfterParsing);
    }
    var categories := NormalizeCategories(req.categories);
    if parsed.categoryOverride != "" {
      categories := [parsed.categoryOverride];
    }
    var locale, language, country := NormalizeOptions(req, parsed.languageOverride);
    return Accepted(Plan(rawQuery, parsed, categories, locale, language, country));
  }

  /** The selection that a plan prescribes: by override, in order and with repetition, or by category,
      every concerned engine once. */
  ghost predicate Selects(
    view: map<string, EngineInfo>, plan: Plan, w: World, active: seq<string>, suspended: seq<(string, string)>)
  {
    var overrides := plan.parsed.engineOverrides;
    && (forall p :: p in suspended ==> p.0 in view && p.1 == view[p.0].reason)
    && if overrides != [] then
         && active == Routed(view, overrides, w.overrideClock, |overrides|, false)
         && FirstNames(suspended) == Routed(view, overrides, w.overrideClock, |overrides|, true)
       else
         && Distinct(active + FirstNames(suspended))
         && (forall n :: n in active <==> Concerned(view, plan.categories, n) && !Suspended(view[n], w.routeClock(n)))
         && (forall n :: n in FirstNames(suspended) <==>
               Concerned(view, plan.categories, n) && Suspended(view[n], w.routeClock(n)))
  }

  method SelectEngines(registry: Registry, plan: Plan, w: World)
    returns (active: seq<Engine>, suspended: seq<(string, string)>)
    requires registry.Valid()
    ensures Selects(registry.View(), plan, w, Names(active), suspended)
  {
    if plan.parsed.engineOverrides != [] {
      active, suspended := RouteOverrides(registry, plan.parsed.engineOverrides, w.overrideClock);
    } else {
      active, suspended := registry.GetActiveAndSuspendedEnginesForCategories(plan.categories, w.routeClock);
    }
  }

  lemma SplitDistinct(a: seq<string>, b: seq<string>)
    requires Distinct(a + b)
    ensures Distinct(a) && Distinct(b) && forall x :: x in a ==> x !in b
  {
    var ab := a + b;
    forall i, j | 0 <= i < j < |a| ensures a[i] != a[j] {
      assert ab[i] == a[i] && ab[j] == a[j];
    }
    forall i, j | 0 <= i < j < |b| ensures b[i] != b[j] {
      assert ab[|a| + i] == b[i] && ab[|a| + j] == b[j];
    }
    forall i, j | 0 <= i < |a| && 0 <= j < |b| ensures a[i] != b[j] {
      assert ab[i] == a[i] && ab[|a| + j] == b[j];
    }
  }

  /** Each name is accounted for once, among the suspended engines or among the metrics. */
  lemma EveryEngineOnce(active: seq<string>, suspended: seq<string>, measured: seq<string>)
    requires Distinct(active + suspended) && multiset(measured) == multiset(active)
    ensures Distinct(measured + suspended)
    ensures forall n :: n in measured + suspended <==> n in active + suspended
  {
    SameLength(active, measured);
    SplitDistinct(active, suspended);
    PermutedDistinct(active, measured);
    forall n: string ensures n in measured <==> n in active {
      assert n in multiset(measured) <==> n in multiset(active);
    }
    DistinctConcat(measured, suspended);
  }

  /** The collector's state when the loop is over. */
  ghost function Collected(w: World, jobs: seq<FanOut.Job>): FanOut.Net
    requires Schedules(w, jobs)
  {
    FanOut.Run(FanOut.Initial(jobs), w.scheduler(jobs), jobs)
  }

  /** A fresh response: fan out to the selected engines, aggregate what arrived without the excluded
      terms, report the suspended engines and the metrics. */
  ghost predicate IsFresh(
    response: SearchResponse, view: map<string, EngineInfo>, plan: Plan, w: World, jobs: seq<FanOut.Job>)
  {
    && response.query == plan.rawQuery
    && response.count == |response.results|
    && Selects(view, plan, w, FanOut.JobNames(jobs), response.unresponsive)
    && (forall i :: 0 <= i < |jobs| ==> jobs[i].outcome == w.answer(i, plan.parsed.cleanQuery, plan))
    && Schedules(w, jobs)
    && IsAggregate(response.results, Kept(Collected(w, jobs).results, plan.parsed.excludedTerms), w.canon)
    && response.metrics == FanOut.FinalMetrics(Collected(w, jobs), jobs, w.ctxErr, w.lateMillis)
  }

  /** A response is fresh for some answers of the selected engines. */
  ghost predicate FreshFor(response: SearchResponse, view: map<string, EngineInfo>, plan: Plan, w: World) {
    exists jobs :: IsFresh(response, view, plan, w, jobs)
  }

  lemma NoEventEnabled(schedule: seq<FanOut.Event>)
    requires FanOut.ValidSchedule(FanOut.Initial([]), schedule, [])
    ensures schedule == []
  {
  }

  lemma NoJobsNoEvents(w: World)
    requires Schedules(w, [])
    ensures Collected(w, []) == FanOut.Initial([])
  {
    NoEventEnabled(w.scheduler([]));
  }

  lemma NothingToAggregate(terms: seq<string>, canon: string -> string)
    ensures IsAggregate([], Kept([], terms), canon)
  {
    var keys: seq<string> := [];
    assert Enumerates(keys, Merge([], canon)) && IsRanking([], Map(CardAt(Merge([], canon)), keys));
  }

  /** The response when no engine is selected. */
  function EmptyResponse(plan: Plan, suspended: seq<(string, string)>): SearchResponse {
    SearchResponse(plan.rawQuery, [], suspended, [], 0)
  }

  lemma EmptyIsFresh(suspended: seq<(string, string)>, plan: Plan, w: World, view: map<string, EngineInfo>)
    requires Schedules(w, []) && Selects(view, plan, w, [], suspended)
    ensures IsFresh(EmptyResponse(plan, suspended), view, plan, w, [])
  {
    NoJobsNoEvents(w);
    NothingToAggregate(plan.parsed.excludedTerms, w.canon);
    assert FanOut.JobNames([]) == [];
  }

  /** Fan-out and aggregation for the selected engines. */
  method RunSearch(
    active: seq<Engine>, suspended: seq<(string, string)>, plan: Plan, w: World, ghost view: map<string, EngineInfo>)
    returns (response: SearchResponse)
    requires forall jobs :: Schedules(w, jobs)
    requires Selects(view, plan, w, Names(active), suspended)
    ensures FreshFor(response, view, plan, w)
  {
    var jobs := JobsFor(active, plan, w);
    assert Schedules(w, jobs);
    if |active| == 0 {
      response := EmptyResponse(plan, suspended);
      assert jobs == [] && Names(active) == [];
      EmptyIsFresh(suspended, plan, w, view);
      return;
    }
    assert Selects(view, plan, w, FanOut.JobNames(jobs), suspended);
    var rawResults, metrics := FanOut.ExecuteSearchConcurrently(jobs, w.scheduler(jobs), w.ctxErr, w.lateMillis);
    assert rawResults == Collected(w, jobs).results;
    var results := AggregateAndScore(rawResults, plan.parsed.excludedTerms, w.canon);
    response := SearchResponse(plan.rawQuery, results, suspended, metrics, |results|);
    assert IsFresh(response, view, plan, w, jobs);
  }

  type Items = map<string, Item<Payload<SearchResponse>>>

  /** The page that a cache in use holds under a key, unexpired. */
  function CachedPage(items: Items, key: string, now: int): Option<SearchResponse> {
    match Lookup<Payload<SearchResponse>>(items, key, now)
    case Some(Page(page)) => Some(page)
    case _ => None
  }

  /** The cache after a fresh response: only one with results is stored. */
  function AfterFresh(items: Items, key: string, w: World, response: SearchResponse, ttl: int): Items {
    var read := AfterGet(items, key, w.tGet);
    if response.results == [] then read else read[key := Item(Page(response), Expiration(w.tSet, ttl))]
  }

  /** What a search replies and leaves in the cache, for a plan and its key, the cache before it, and
      a view of the registry. */
  ghost predicate Replies(
    plan: Plan, key: string, usesCache: bool, before: Items, after: Items,
    view: map<string, EngineInfo>, ttl: int, w: World, r: Reply)
  {
    if usesCache && CachedPage(before, key, w.tGet).Some? then
      r == Hit(CachedPage(before, key, w.tGet).value) && after == AfterGet(before, key, w.tGet)
    else
      && r.Fresh?
      && FreshFor(r.response, view, plan, w)
      && after == if usesCache then AfterFresh(before, key, w, r.response, ttl) else before
  }

  lemma UnusedKey(
    plan: Plan, key: string, other: string, before: Items, after: Items,
    view: map<string, EngineInfo>, ttl: int, w: World, r: Reply)
    requires Replies(plan, key, false, before, after, view, ttl, w, r)
    ensures Replies(plan, other, false, before, after, view, ttl, w, r)
  {
  }

  class SearchHandler {
    const registry: Registry
    const cache: InMemoryCache?<Payload<SearchResponse>>
    const cacheEnabled: bool
    const ttl: int

    constructor (registry: Registry, cache: InMemoryCache?<Payload<SearchResponse>>, cacheEnabled: bool, ttl: int)
      ensures this.registry == registry && this.cache == cache && this.cacheEnabled == cacheEnabled && this.ttl == ttl
    {
      this.registry := registry;
      this.cache := cache;
      this.cacheEnabled := cacheEnabled;
      this.ttl := ttl;
    }

    predicate UsesCache() {
      cache != null && cacheEnabled
    }

    function Stored(): Items
      reads cache
    {
      if cache == null then map[] else cache.items
    }

    method ReadCache(key: string, now: int) returns (page: Option<SearchResponse>)
      modifies cache
      ensures page == if UsesCache() then CachedPage(old(Stored()), key, now) else None
      ensures Stored() == if UsesCache() then AfterGet(old(Stored()), key, now) else old(Stored())
    {
      if UsesCache() {
        var found := cache.Get(key, now);
        if found.Some? && found.value.Page? {
          return Some(found.value.page);
        }
      }
      return None;
    }

    method WriteCache(key: string, response: SearchResponse, now: int)
      modifies cache
      ensures Stored() == if UsesCache() && response.results != []
        then old(Stored())[key := Item(Page(response), Expiration(now, ttl))]
        else old(Stored())
    {
      if UsesCache() && |response.results| > 0 {
        cache.Set(key, Page(response), ttl, now);
      }
    }

    method Answer(plan: Plan, key: string, w: World) returns (r: Reply)
      requires registry.Valid()
      requires forall jobs :: Schedules(w, jobs)
      modifies cache
      ensures Replies(plan, key, UsesCache(), old(Stored()), Stored(), old(registry.View()), ttl, w, r)
    {
      ghost var view := registry.View();
      var page := ReadCache(key, w.tGet);
      if page.Some? {
        return Hit(page.value);
      }
      assert registry.View() == view;
      var active, suspended := SelectEngines(registry, plan, w);
      var response := RunSearch(active, suspended, plan, w, view);
      WriteCache(key, response, w.tSet);
      return Fresh(response);
    }

    method AnswerPlan(plan: Plan, w: World) returns (r: Reply)
      requires registry.Valid()
      requires forall jobs :: Schedules(w, jobs)
      modifies cache
      ensures Replies(plan, w.digest(RawKey(KeyOfPlan(plan))), UsesCache(), old(Stored()), Stored(),
                      old(registry.View()), ttl, w, r)
    {
      if UsesCache() {
        var key := GenerateKey(KeyOfPlan(plan), w.digest);
        r := Answer(plan, key, w);
      } else {
        r := Answer(plan, "", w);
        ghost var key := w.digest(RawKey(KeyOfPlan(plan)));
        UnusedKey(plan, "", key, old(Stored()), Stored(), old(registry.View()), ttl, w, r);
      }
    }

    /** A hit is the page stored under the plan's key and not expired; everything else that is
        accepted is a fresh response. */
    method SearchSingle(req: Request, w: World) returns (r: Reply)
      requires registry.Valid()
      requires forall jobs :: Schedules(w, jobs)
      modifies cache
      ensures match PlanOf(req, registry.engines.Keys)
        case Rejected(e) => r == Refused(e) && Stored() == old(Stored())
        case Accepted(plan) =>
          Replies(plan, w.digest(RawKey(KeyOfPlan(plan))), UsesCache(), old(Stored()), Stored(),
                  old(registry.View()), ttl, w, r)
      ensures !cacheEnabled ==> Stored() == old(Stored()) && !r.Hit?
    {
      ghost var view := registry.View();
      var planned := MakePlan(req, registry);
      if planned.Rejected? {
        return Refused(planned.error);
      }
      assert registry.View() == view;
      r := AnswerPlan(planned.plan, w);
    }
  }

  // ----- what a fresh response guarantees

  lemma PlanTermsFolded(req: Request, names: set<string>, plan: Plan)
    requires PlanOf(req, names) == Accepted(plan)
    ensures forall t :: t in plan.parsed.excludedTerms ==> t != "" && Lower(t) == t
  {
    ExcludedTermsAreFolded(TrimSpace(req.query), names);
  }

  lemma FreshHidesFoldedTerms(response: SearchResponse, view: map<string, EngineInfo>, w: World, plan: Plan)
    requires FreshFor(response, view, plan, w)
    requires forall t :: t in plan.parsed.excludedTerms ==> t != "" && Lower(t) == t
    ensures forall i, t :: 0 <= i < |response.results| && t in plan.parsed.excludedTerms ==>
      !Contains(Lower(response.results[i].title), t) && !Contains(Lower(response.results[i].content), t)
    ensures Ranked(response.results)
  {
    var jobs :| IsFresh(response, view, plan, w, jobs);
    NoCardShowsExcludedTerm(response.results, Collected(w, jobs).results, plan.parsed.excludedTerms, w.canon);
  }

  /** No card shows a term that the query excludes, in any case, and the cards are ranked. */
  lemma FreshShowsNoExcludedTerm(
    response: SearchResponse, view: map<string, EngineInfo>, req: Request, names: set<string>, w: World, plan: Plan)
    requires PlanOf(req, names) == Accepted(plan) && FreshFor(response, view, plan, w)
    ensures forall i, t :: 0 <= i < |response.results| && t in plan.parsed.excludedTerms ==>
      !Contains(Lower(response.results[i].title), t) && !Contains(Lower(response.results[i].content), t)
    ensures Ranked(response.results)
  {
    PlanTermsFolded(req, names, plan);
    FreshHidesFoldedTerms(response, view, w, plan);
  }

  /** Routed by category, on every schedule and wherever the deadline falls, every enabled engine of
      the categories appears exactly once, among the unresponsive engines or among the metrics. */
  lemma FreshAccountsForEveryEngine(response: SearchResponse, view: map<string, EngineInfo>, plan: Plan, w: World)
    requires FreshFor(response, view, plan, w) && plan.parsed.engineOverrides == []
    ensures var named := FanOut.EngineNames(response.metrics) + FirstNames(response.unresponsive);
      Distinct(named) && forall n :: n in named <==> Concerned(view, plan.categories, n)
  {
    var jobs :| IsFresh(response, view, plan, w, jobs);
    var active, suspended := FanOut.JobNames(jobs), FirstNames(response.unresponsive);
    SplitDistinct(active, suspended);
    FanOut.OneMetricPerEngine(jobs, w.scheduler(jobs), w.ctxErr, w.lateMillis);
    EveryEngineOnce(active, suspended, FanOut.EngineNames(response.metrics));
  }

  lemma {:induction false} FlattenMember(inbox: seq<FanOut.Message>, item: EngineResult) returns (k: nat)
    requires item in Flatten(FanOut.ResultsOf, inbox)
    ensures k < |inbox| && item in FanOut.ResultsOf(inbox[k])
  {
    if item in FanOut.ResultsOf(inbox[0]) {
      k := 0;
    } else {
      k := FlattenMember(inbox[1..], item);
      k := k + 1;
    }
  }

  /** Every result that arrives was in the answer of a selected engine that did not fail. */
  lemma ArrivedWasAnswered(jobs: seq<FanOut.Job>, schedule: seq<FanOut.Event>, item: EngineResult) returns (j: nat)
    requires FanOut.ValidSchedule(FanOut.Initial(jobs), schedule, jobs)
    requires item in FanOut.Run(FanOut.Initial(jobs), schedule, jobs).results
    ensures j < |jobs| && jobs[j].outcome.err == None && item in jobs[j].outcome.results
  {
    FanOut.ResultsAreReceived(jobs, schedule);
    var inbox := FanOut.Run(FanOut.Initial(jobs), schedule, jobs).inbox;
    var k := FlattenMember(inbox, item);
    j := inbox[k].sender;
  }

  /** A fresh response repeats the query, counts its results, and gives the reason of every engine that
      it calls unresponsive: one that is enabled and was suspended when it was selected. */
  lemma FreshEchoes(response: SearchResponse, view: map<string, EngineInfo>, plan: Plan, w: World)
    requires FreshFor(response, view, plan, w)
    ensures response.query == plan.rawQuery && response.count == |response.results|
    ensures forall p :: p in response.unresponsive ==>
      p.0 in view && !view[p.0].disabled && p.1 == view[p.0].reason
    ensures plan.parsed.engineOverrides == [] ==> forall p :: p in response.unresponsive ==>
      p.0 in view && w.routeClock(p.0) < view[p.0].suspendedUntil
  {
    var jobs :| IsFresh(response, view, plan, w, jobs);
    var overrides := plan.parsed.engineOverrides;
    RoutedAreOverrides(view, overrides, w.overrideClock, |overrides|, true);
    forall p | p in response.unresponsive
      ensures p.0 in view && !view[p.0].disabled
      ensures overrides == [] ==> w.routeClock(p.0) < view[p.0].suspendedUntil
    {
      var k :| 0 <= k < |response.unresponsive| && response.unresponsive[k] == p;
      assert FirstNames(response.unresponsive)[k] == p.0;
    }
  }

  lemma CardComesFromAnswer(
    results: seq<SearchResult>, jobs: seq<FanOut.Job>, schedule: seq<FanOut.Event>, terms: seq<string>,
    canon: string -> string, i: nat)
    returns (j: nat, item: EngineResult)
    requires FanOut.ValidSchedule(FanOut.Initial(jobs), schedule, jobs)
    requires IsAggregate(results, Kept(FanOut.Run(FanOut.Initial(jobs), schedule, jobs).results, terms), canon)
    requires i < |results|
    ensures j < |jobs| && jobs[j].outcome.err == None
    ensures item in jobs[j].outcome.results && item.url == results[i].url
  {
    var items := Kept(FanOut.Run(FanOut.Initial(jobs), schedule, jobs).results, terms);
    var c := AggregateHasCard(results, items, canon, i);
    MergeMeetsGroups(items, c, canon);
    item := Group(items, c, canon)[0];
    assert item in Group(items, c, canon) && item in items;
    j := ArrivedWasAnswered(jobs, schedule, item);
  }

  /** Every card of a fresh response has the URL of a result that a selected engine returned, without an
      error, for the query without its operators. */
  lemma FreshComesFromAnswers(
    response: SearchResponse, view: map<string, EngineInfo>, plan: Plan, w: World, i: nat)
    returns (j: nat, engine: string, item: EngineResult)
    requires FreshFor(response, view, plan, w) && i < |response.results|
    ensures w.answer(j, plan.parsed.cleanQuery, plan).err == None
    ensures item in w.answer(j, plan.parsed.cleanQuery, plan).results && item.url == response.results[i].url
    ensures engine in view && !view[engine].disabled
    ensures if plan.parsed.engineOverrides != [] then engine in plan.parsed.engineOverrides
            else Concerned(view, plan.categories, engine)
  {
    var jobs :| IsFresh(response, view, plan, w, jobs);
    var overrides := plan.parsed.engineOverrides;
    j, item := CardComesFromAnswer(response.results, jobs, w.scheduler(jobs), plan.parsed.excludedTerms, w.canon, i);
    engine := FanOut.JobNames(jobs)[j];
    assert engine in FanOut.JobNames(jobs);
    RoutedAreOverrides(view, overrides, w.overrideClock, |overrides|, false);
  }
}

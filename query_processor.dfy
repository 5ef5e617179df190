/** QueryProcessor: what the retrieval step reads off a user's incident
    query. Keywords, an incident type chosen by a fixed priority of keyword
    alternations, an urgency flag and the query extended with its type. All
    of it is lexical and stateless. */
module QueryProcessor {
  import opened Text

  /** The words `_extract_keywords` drops. */
  const StopWords: set<string> := {"the", "a", "an", "is", "are", "was", "were", "be", "been", "being"}

  // ----- Keywords -------------------------------------------------------

  /** A token of `\b\w+\b`: a non-empty run of word characters. */
  predicate IsToken(w: string) {
    w != [] && forall i :: 0 <= i < |w| ==> IsWordChar(w[i])
  }

  predicate NoUpper(s: string) {
    forall i :: 0 <= i < |s| ==> !('A' <= s[i] <= 'Z')
  }

  /** Length of the run of word characters that starts at `i`. */
  function WordCharRun(s: string, i: nat): (k: nat)
    requires i <= |s|
    ensures i + k <= |s|
    ensures forall j :: i <= j < i + k ==> IsWordChar(s[j])
    ensures i + k == |s| || !IsWordChar(s[i + k])
    decreases |s| - i
  {
    if i < |s| && IsWordChar(s[i]) then 1 + WordCharRun(s, i + 1) else 0
  }

  /** `re.findall(r'\b\w+\b', s)`: the maximal runs of word characters, in
      order. Upper-case letters in a token can only come from `s`. */
  function Tokens(s: string): (r: seq<string>)
    ensures forall k :: 0 <= k < |r| ==> IsToken(r[k])
    ensures NoUpper(s) ==> forall k :: 0 <= k < |r| ==> NoUpper(r[k])
    decreases |s|
  {
    if s == [] then []
    else if !IsWordChar(s[0]) then Tokens(s[1..])
    else
      var e := WordCharRun(s, 0);
      assert NoUpper(s) ==> NoUpper(s[..e]);
      [s[..e]] + Tokens(s[e..])
  }

  lemma TokensOfTokenThen(w: string, t: string)
    requires IsToken(w)
    requires t == [] || !IsWordChar(t[0])
    ensures Tokens(w + t) == [w] + Tokens(t)
  {
    var s := w + t;
    assert s[0] == w[0];
    assert forall i :: 0 <= i < |w| ==> s[i] == w[i];
    assert t != [] ==> s[|w|] == t[0];
    assert WordCharRun(s, 0) == |w|;
    assert s[..|w|] == w && s[|w|..] == t;
  }

  /** Tokenising words joined by spaces gives the words back. */
  lemma {:induction false} TokensOfJoin(ws: seq<string>)
    requires forall k :: 0 <= k < |ws| ==> IsToken(ws[k])
    ensures Tokens(JoinWith(" ", ws)) == ws
    decreases |ws|
  {
    if |ws| == 1 {
      TokensOfTokenThen(ws[0], "");
      assert ws[0] + "" == ws[0];
    } else if |ws| > 1 {
      var rest := JoinWith(" ", ws[1..]);
      TokensOfTokenThen(ws[0], " " + rest);
      assert JoinWith(" ", ws) == ws[0] + (" " + rest);
      assert (" " + rest)[1..] == rest;
      TokensOfJoin(ws[1..]);
      assert ws == [ws[0]] + ws[1..];
    }
  }

  /** `findall` on the empty text finds nothing. */
  lemma TokensOfEmpty()
    ensures Tokens([]) == []
  {
  }

  /** A token on its own is the one token found. */
  lemma TokensOfToken(w: string)
    requires IsToken(w)
    ensures Tokens(w) == [w]
  {
    TokensOfTokenThen(w, "");
    assert w + "" == w;
  }

  /** A character that is not a word character separates: the tokens of a
      text around it are the tokens before it followed by the tokens after
      it. With `TokensOfEmpty` and `TokensOfToken` this fixes `Tokens` on
      every text: the maximal runs of word characters, in order. */
  lemma {:induction false} TokensAround(a: string, c: char, b: string)
    requires !IsWordChar(c)
    ensures Tokens(a + [c] + b) == Tokens(a) + Tokens(b)
    decreases |a|
  {
    var s := a + [c] + b;
    if a == [] {
      assert s == [c] + b && s[0] == c && s[1..] == b;
    } else if !IsWordChar(a[0]) {
      assert s[0] == a[0] && s[1..] == a[1..] + [c] + b;
      TokensAround(a[1..], c, b);
    } else {
      assert s[0] == a[0];
      var e := WordCharRun(a, 0);
      RunStopsAt(a, c, b, 0);
      assert WordCharRun(s, 0) == e;
      assert s[..e] == a[..e];
      assert s[e..] == a[e..] + [c] + b;
      TokensAround(a[e..], c, b);
    }
  }

  /** A run of word characters inside `a` stops where it stops in `a + [c] + b`. */
  lemma {:induction false} RunStopsAt(a: string, c: char, b: string, i: nat)
    requires !IsWordChar(c) && i <= |a|
    ensures WordCharRun(a + [c] + b, i) == WordCharRun(a, i)
    decreases |a| - i
  {
    var s := a + [c] + b;
    if i < |a| {
      assert s[i] == a[i];
      if IsWordChar(a[i]) {
        RunStopsAt(a, c, b, i + 1);
      }
    } else {
      assert s[i] == c;
    }
  }

  predicate IsKeyword(w: string) {
    w !in StopWords && |w| > 2
  }

  /** The comprehension of `_extract_keywords`: the tokens that are not stop
      words and are longer than two characters, in order, duplicates kept. */
  function KeepKeywords(ws: seq<string>): (r: seq<string>)
    ensures |r| <= |ws|
    ensures forall w :: w in r <==> w in ws && IsKeyword(w)
    decreases |ws|
  {
    if ws == [] then []
    else if IsKeyword(ws[0]) then [ws[0]] + KeepKeywords(ws[1..])
    else KeepKeywords(ws[1..])
  }

  /** The filter works token by token: on a concatenation it is the
      concatenation of the filtered parts, so order and repetitions are kept. */
  lemma {:induction false} KeepKeywordsAppend(xs: seq<string>, ys: seq<string>)
    ensures KeepKeywords(xs + ys) == KeepKeywords(xs) + KeepKeywords(ys)
    decreases |xs|
  {
    if xs == [] {
      assert xs + ys == ys;
    } else {
      assert (xs + ys)[0] == xs[0];
      assert (xs + ys)[1..] == xs[1..] + ys;
      KeepKeywordsAppend(xs[1..], ys);
    }
  }

  /** `_extract_keywords`: the keywords among the tokens of the lower-cased
      query. Each is a lower-case token of at least three characters that is
      not a stop word, and every such token of the query is kept. */
  function Keywords(query: string): (r: seq<string>)
    ensures forall k :: 0 <= k < |r| ==> IsToken(r[k]) && NoUpper(r[k]) && IsKeyword(r[k])
    ensures forall w :: w in r <==> w in Tokens(Lower(query)) && IsKeyword(w)
    ensures r == KeepKeywords(Tokens(Lower(query)))
  {
    var ts := Tokens(Lower(query));
    forall k | 0 <= k < |KeepKeywords(ts)|
      ensures KeepKeywords(ts)[k] in ts
    {
      assert KeepKeywords(ts)[k] in KeepKeywords(ts);
    }
    KeepKeywords(ts)
  }

  // ----- Incident type and urgency --------------------------------------

  /** Whether one of the alternatives occurs anywhere in `q`, ignoring ASCII
      case: `re.search("(?i)(w1|w2|...)", q)`. */
  function AnyOccurs(q: string, words: seq<string>): (r: bool)
    ensures r <==> exists k :: 0 <= k < |words| && OccursCI(q, words[k], 0)
    decreases |words|
  {
    if words == [] then false
    else OccursCI(q, words[0], 0) || AnyOccurs(q, words[1..])
  }

  /** The incident types of `_detect_incident_type`, in the order the
      dictionary lists (and the loop tries) them. */
  const IncidentPatterns: seq<(string, seq<string>)> := [
    ("database", ["database", "db", "mysql", "postgres", "sql", "connection"]),
    ("network", ["network", "connectivity", "timeout", "dns", "firewall"]),
    ("application", ["application", "app", "service", "api", "crash", "error"]),
    ("performance", ["slow", "performance", "latency", "cpu", "memory", "disk"]),
    ("security", ["security", "breach", "unauthorized", "hack", "vulnerability"])
  ]

  /** The first entry whose alternation occurs, else `"general"`. */
  function FirstType(q: string, pats: seq<(string, seq<string>)>): (r: string)
    ensures (forall k :: 0 <= k < |pats| ==> !AnyOccurs(q, pats[k].1)) ==> r == "general"
    ensures (exists k :: 0 <= k < |pats| && AnyOccurs(q, pats[k].1)) ==>
      exists k :: 0 <= k < |pats| && r == pats[k].0 && AnyOccurs(q, pats[k].1)
        && forall j :: 0 <= j < k ==> !AnyOccurs(q, pats[j].1)
    decreases |pats|
  {
    if pats == [] then "general"
    else if AnyOccurs(q, pats[0].1) then pats[0].0
    else
      var r := FirstType(q, pats[1..]);
      assert forall k :: 1 <= k < |pats| ==> pats[1..][k - 1] == pats[k];
      r
  }

  /** `_detect_incident_type`: the first type, in the order database,
      network, application, performance, security, one of whose keywords
      occurs as a substring of the query ignoring case; `"general"` exactly
      when none does. */
  function DetectIncidentType(query: string): (r: string)
    ensures r == "general" <==> forall k :: 0 <= k < |IncidentPatterns| ==> !AnyOccurs(query, IncidentPatterns[k].1)
    ensures r != "general" ==>
      exists k :: 0 <= k < |IncidentPatterns| && r == IncidentPatterns[k].0
        && AnyOccurs(query, IncidentPatterns[k].1)
        && forall j :: 0 <= j < k ==> !AnyOccurs(query, IncidentPatterns[j].1)
  {
    FirstType(query, IncidentPatterns)
  }

  const UrgentWords: seq<string> := ["urgent", "critical", "emergency", "down", "outage", "production"]

  /** `_detect_urgency`: `"high"` exactly when one of the urgent words occurs
      as a substring ignoring case, `"normal"` otherwise. */
  function DetectUrgency(query: string): (r: string)
    ensures r == "high" || r == "normal"
    ensures r == "high" <==> exists k :: 0 <= k < |UrgentWords| && OccursCI(query, UrgentWords[k], 0)
  {
    if AnyOccurs(query, UrgentWords) then "high" else "normal"
  }

  // ----- Enhanced query and the whole result ----------------------------

  /** `_enhance_query`: the query itself, extended by `" <type> incident"`
      unless the type is `"general"`; the keywords are not used. */
  function EnhanceQuery(query: string, keywords: seq<string>, incidentType: string): (r: string)
    ensures |query| <= |r| && r[..|query|] == query
    ensures incidentType == "general" ==> r == query
    ensures incidentType != "general" ==> r[|query|..] == " " + incidentType + " incident"
  {
    var r := if incidentType != "general" then query + " " + incidentType + " incident" else query;
    assert incidentType != "general" ==> r == query + (" " + incidentType + " incident");
    r
  }

  datatype QueryInfo = QueryInfo(
    originalQuery: string,
    keywords: seq<string>,
    incidentType: string,
    urgency: string,
    enhancedQuery: string)

  /** `process`: the query unchanged and every derived field computed from
      it alone. */
  function Process(query: string): (r: QueryInfo)
    ensures r.originalQuery == query
    ensures r.keywords == Keywords(query)
    ensures r.incidentType == DetectIncidentType(query)
    ensures r.urgency == DetectUrgency(query)
    ensures r.enhancedQuery == EnhanceQuery(query, r.keywords, r.incidentType)
  {
    var keywords := Keywords(query);
    var incidentType := DetectIncidentType(query);
    QueryInfo(query, keywords, incidentType, DetectUrgency(query), EnhanceQuery(query, keywords, incidentType))
  }

  // ----- Examples -------------------------------------------------------

  /** A production database outage is classified as a database incident,
      the first type tried, although it also names a network keyword. */
  lemma ProductionDatabaseType()
    ensures DetectIncidentType("production database connection timeout urgent") == "database"
  {
    var q := "production database connection timeout urgent";
    assert AtCI(q, 11, "database");
    assert OccursCI(q, IncidentPatterns[0].1[0], 0);
  }

  /** ... and is urgent. */
  lemma ProductionDatabaseUrgency()
    ensures DetectUrgency("production database connection timeout urgent") == "high"
  {
    var q := "production database connection timeout urgent";
    assert AtCI(q, 0, "production");
    assert OccursCI(q, UrgentWords[5], 0);
  }

  /** Substring matching has no word boundaries: `"feedback"` contains
      `"db"`, so a query about feedback is a database incident. */
  lemma FeedbackIsDatabase()
    ensures DetectIncidentType("feedback") == "database"
  {
    assert AtCI("feedback", 3, "db");
    assert OccursCI("feedback", IncidentPatterns[0].1[1], 0);
  }
}

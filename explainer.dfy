/**
 * vuln_explainer.py: `normalize`, the three-pass lookup of `explain_vulnerability`
 * in the vulnerability database, and `format_response`.
 */
module Explainer {
  import opened Wrappers
  import opened Text

  /** A value loaded from `vuln_db.json`. An object keeps its keys in file order, each key once. */
  datatype Json = JNull | JBool(b: bool) | JNum(n: int) | JStr(s: string) | JArr(items: seq<Json>) | JObj(fields: seq<(string, Json)>)

  /** Python truthiness of a JSON value. */
  predicate Truthy(v: Json) {
    match v
    case JNull => false
    case JBool(b) => b
    case JNum(n) => n != 0
    case JStr(s) => s != ""
    case JArr(items) => items != []
    case JObj(fields) => fields != []
  }

  /** `d.get(key)` on an object's fields. */
  function Get(fields: seq<(string, Json)>, key: string): (r: Option<Json>)
    ensures r.None? <==> forall i :: 0 <= i < |fields| ==> fields[i].0 != key
  {
    if fields == [] then None
    else if fields[0].0 == key then Some(fields[0].1)
    else Get(fields[1..], key)
  }

  predicate IsAlnum(c: char) {
    ('a' <= c <= 'z') || ('0' <= c <= '9')
  }

  /** Drop the leading run of characters outside `[a-z0-9]`. */
  function DropRun(s: string): (r: string)
    ensures |r| <= |s| && (r == [] || IsAlnum(r[0]))
  {
    if s == [] || IsAlnum(s[0]) then s else DropRun(s[1..])
  }

  /** `re.sub(r"[^a-z0-9]+", " ", s)`: every maximal run outside `[a-z0-9]` becomes one space. */
  function Collapse(s: string): (r: string)
    ensures |r| == 0 <==> |s| == 0
    ensures |s| > 0 && IsAlnum(s[0]) ==> r[0] == s[0]
    ensures forall i :: 0 <= i < |r| ==> IsAlnum(r[i]) || r[i] == ' '
    decreases |s|
  {
    if s == [] then []
    else if IsAlnum(s[0]) then [s[0]] + Collapse(s[1..])
    else " " + Collapse(DropRun(s[1..]))
  }

  /** Only `[a-z0-9]` and spaces. */
  predicate AlnumOrSpace(s: string) {
    forall i :: 0 <= i < |s| ==> IsAlnum(s[i]) || s[i] == ' '
  }

  /** Of two neighbouring characters, `s[i]` and `s[j]` with `j == i + 1`, at least one is in `[a-z0-9]`. */
  predicate SingleSpaced(s: string) {
    forall i, j :: 0 <= i < |s| && 0 <= j < |s| && j == i + 1 ==> IsAlnum(s[i]) || IsAlnum(s[j])
  }

  /** Collapsing never leaves two spaces in a row. */
  lemma {:induction false} CollapseSingleSpaces(s: string)
    ensures SingleSpaced(Collapse(s))
    decreases |s|
  {
    if s != [] {
      var t := if IsAlnum(s[0]) then s[1..] else DropRun(s[1..]);
      CollapseSingleSpaces(t);
      var r := Collapse(s);
      var rest := Collapse(t);
      assert r == [r[0]] + rest;
      forall i, j | 0 <= i < j < |r| && j == i + 1 ensures IsAlnum(r[i]) || IsAlnum(r[j]) {
        if i > 0 {
          assert r[i] == rest[i - 1] && r[j] == rest[i];
        } else if !IsAlnum(s[0]) {
          assert r[1] == rest[0];
        }
      }
    }
  }

  /** No character of `s` is in `[a-z0-9]`. */
  predicate NoAlnum(s: string) {
    forall i :: 0 <= i < |s| ==> !IsAlnum(s[i])
  }

  /** The `[a-z0-9]` characters of `s`, in order. */
  function AlnumOf(s: string): (r: string)
    ensures |r| <= |s|
  {
    if s == [] then [] else (if IsAlnum(s[0]) then [s[0]] else []) + AlnumOf(s[1..])
  }

  /** Collapsing keeps every `[a-z0-9]` character, in order, and adds no other one. */
  lemma {:induction false} CollapseKeepsAlnum(s: string)
    ensures AlnumOf(Collapse(s)) == AlnumOf(s)
    decreases |s|
  {
    if s != [] {
      var r := Collapse(s);
      if IsAlnum(s[0]) {
        CollapseKeepsAlnum(s[1..]);
        assert r[1..] == Collapse(s[1..]);
      } else {
        var t := DropRun(s[1..]);
        CollapseKeepsAlnum(t);
        DropRunKeepsAlnum(s[1..]);
        assert r[1..] == Collapse(t);
      }
    }
  }

  lemma {:induction false} DropRunKeepsAlnum(s: string)
    ensures AlnumOf(DropRun(s)) == AlnumOf(s)
    decreases |s|
  {
    if s != [] && !IsAlnum(s[0]) {
      DropRunKeepsAlnum(s[1..]);
    }
  }

  /** A whole run outside `[a-z0-9]` becomes a single space. */
  lemma {:induction false} CollapseRun(s: string)
    requires s != [] && NoAlnum(s)
    ensures Collapse(s) == " "
  {
    DropRunOfRun(s[1..]);
  }

  lemma {:induction false} DropRunOfRun(s: string)
    requires NoAlnum(s)
    ensures DropRun(s) == []
    decreases |s|
  {
    if s != [] {
      DropRunOfRun(s[1..]);
    }
  }

  /** Dropping a run that ends inside `s` is not affected by what follows `s`. */
  lemma {:induction false} DropRunAppend(s: string, b: string)
    requires DropRun(s) != []
    ensures DropRun(s + b) == DropRun(s) + b
    decreases |s|
  {
    if !IsAlnum(s[0]) {
      assert (s + b)[1..] == s[1..] + b;
      DropRunAppend(s[1..], b);
    }
  }

  /** A run of `s` that reaches its end is joined by a run at the start of what follows. */
  lemma {:induction false} DropRunAcross(s: string, b: string)
    requires NoAlnum(s)
    ensures DropRun(s + b) == DropRun(b)
    decreases |s|
  {
    if s == [] {
      assert s + b == b;
    } else {
      assert (s + b)[1..] == s[1..] + b;
      DropRunAcross(s[1..], b);
    }
  }

  /**
   * Collapsing works piece by piece wherever the cut does not split a run outside
   * `[a-z0-9]`. With `CollapseRun` and the one-character case this determines
   * `Collapse` on every text: each `[a-z0-9]` character stays, in order, and each
   * maximal run of other characters becomes one space.
   */
  lemma {:induction false} CollapseAppend(a: string, b: string)
    requires a == [] || b == [] || IsAlnum(a[|a| - 1]) || IsAlnum(b[0])
    ensures Collapse(a + b) == Collapse(a) + Collapse(b)
    decreases |a|
  {
    if a == [] {
      assert a + b == b;
    } else if IsAlnum(a[0]) {
      assert (a + b)[1..] == a[1..] + b;
      CollapseAppend(a[1..], b);
      Associative([a[0]], Collapse(a[1..]), Collapse(b));
    } else if DropRun(a[1..]) == [] {
      DropRunEmpty(a[1..]);
      NoAlnumCons(a);
      CollapseRun(a);
      CollapseAfterRun(a, b);
    } else {
      var d := CollapseSkipRun(a, b);
      CollapseAppend(d, b);
      Associative(" ", Collapse(d), Collapse(b));
    }
  }

  lemma Associative<T>(x: seq<T>, y: seq<T>, z: seq<T>)
    ensures x + (y + z) == (x + y) + z
  {
  }

  lemma NoAlnumCons(a: string)
    requires a != [] && !IsAlnum(a[0]) && NoAlnum(a[1..])
    ensures NoAlnum(a)
  {
    forall i | 0 < i < |a| ensures !IsAlnum(a[i]) {
      assert a[i] == a[1..][i - 1];
    }
  }

  /** A whole run followed by text that does not continue it becomes one space before that text. */
  lemma CollapseAfterRun(a: string, b: string)
    requires a != [] && NoAlnum(a)
    requires b == [] || IsAlnum(b[0])
    ensures Collapse(a + b) == " " + Collapse(b)
  {
    var ab := a + b;
    assert ab[0] == a[0] && ab[1..] == a[1..] + b;
    assert NoAlnum(a[1..]);
    DropRunAcross(a[1..], b);
  }

  /** A leading run that ends inside `a` collapses to one space before the rest of `a`. */
  lemma CollapseSkipRun(a: string, b: string) returns (d: string)
    requires a != [] && !IsAlnum(a[0]) && DropRun(a[1..]) != []
    ensures d == DropRun(a[1..]) && |d| < |a| && d[|d| - 1] == a[|a| - 1]
    ensures Collapse(a + b) == " " + Collapse(d + b) && Collapse(a) == " " + Collapse(d)
  {
    d := DropRun(a[1..]);
    assert (a + b)[1..] == a[1..] + b;
    DropRunAppend(a[1..], b);
    DropRunSuffix(a[1..]);
  }

  lemma {:induction false} DropRunEmpty(s: string)
    requires DropRun(s) == []
    ensures NoAlnum(s)
    decreases |s|
  {
    if s != [] {
      DropRunEmpty(s[1..]);
    }
  }

  /** What survives the run dropped is a suffix of `s`, so it ends as `s` does. */
  lemma {:induction false} DropRunSuffix(s: string)
    ensures DropRun(s) == s[|s| - |DropRun(s)|..]
    decreases |s|
  {
    if s != [] && !IsAlnum(s[0]) {
      DropRunSuffix(s[1..]);
    }
  }

  /** `normalize(text)`: "" for a falsy text, else lower-cased, runs collapsed, stripped. */
  function Normalize(text: Option<string>): string {
    if text.None? || text.value == "" then "" else Strip(Collapse(Lower(text.value)))
  }

  /** Only `[a-z0-9]` and single spaces, with no space at either end. */
  predicate Clean(s: string) {
    && AlnumOrSpace(s)
    && SingleSpaced(s)
    && (s == [] || (s[0] != ' ' && s[|s| - 1] != ' '))
  }

  /** Stripping text made of `[a-z0-9]` and single spaces leaves a clean text. */
  lemma StripCollapsedIsClean(c: string)
    requires AlnumOrSpace(c) && SingleSpaced(c)
    ensures Clean(Strip(c))
  {
    StripKeepsCollapsed(c);
    StripEndsNotSpace(c);
  }

  lemma StripKeepsCollapsed(c: string)
    requires AlnumOrSpace(c) && SingleSpaced(c)
    ensures AlnumOrSpace(Strip(c)) && SingleSpaced(Strip(c))
  {
    StripSurroundings(c);
    var pre, post :| AllSpace(pre) && AllSpace(post) && c == pre + Strip(c) + post;
    MiddleOfCollapsed(pre, Strip(c), post);
  }

  lemma StripEndsNotSpace(c: string)
    ensures var r := Strip(c); r == [] || (r[0] != ' ' && r[|r| - 1] != ' ')
  {
    assert IsSpace(' ');
  }

  lemma MiddleOfCollapsed(pre: string, r: string, post: string)
    requires AlnumOrSpace(pre + r + post) && SingleSpaced(pre + r + post)
    ensures AlnumOrSpace(r) && SingleSpaced(r)
  {
    OccursInMiddle(pre, r, post);
    SliceOfCollapsed(pre + r + post, r, |pre|);
  }

  /** A slice of text made of `[a-z0-9]` and single spaces is made the same way. */
  lemma SliceOfCollapsed(c: string, r: string, i: int)
    requires AlnumOrSpace(c) && SingleSpaced(c)
    requires OccursAt(c, r, i)
    ensures AlnumOrSpace(r) && SingleSpaced(r)
  {
    assert r == c[i..i + |r|];
    forall k | 0 <= k < |r| ensures IsAlnum(r[k]) || r[k] == ' ' {
      assert r[k] == c[i + k];
    }
    forall k, l | 0 <= k < l < |r| && l == k + 1 ensures IsAlnum(r[k]) || IsAlnum(r[l]) {
      assert r[k] == c[i + k] && r[l] == c[i + l];
    }
  }

  /** The output of `normalize` is clean. */
  lemma NormalizeIsClean(text: Option<string>)
    ensures Clean(Normalize(text))
  {
    if text.Some? && text.value != "" {
      CollapseSingleSpaces(Lower(text.value));
      StripCollapsedIsClean(Collapse(Lower(text.value)));
    }
  }

  /** `normalize` keeps the `[a-z0-9]` characters of the lower-cased text, in order, and no others. */
  lemma NormalizeKeepsAlnum(text: Option<string>)
    ensures AlnumOf(Normalize(text)) == if text.Some? then AlnumOf(Lower(text.value)) else []
  {
    if text.Some? && text.value != "" {
      CollapseKeepsAlnum(Lower(text.value));
      StripKeepsAlnum(Collapse(Lower(text.value)));
    }
  }

  /** Stripping removes no `[a-z0-9]` character. */
  lemma StripKeepsAlnum(s: string)
    ensures AlnumOf(Strip(s)) == AlnumOf(s)
  {
    StripSurroundings(s);
    var pre, post :| AllSpace(pre) && AllSpace(post) && s == pre + Strip(s) + post;
    AlnumOfAppend(pre + Strip(s), post);
    AlnumOfAppend(pre, Strip(s));
    AlnumOfSpace(pre);
    AlnumOfSpace(post);
  }

  lemma {:induction false} AlnumOfAppend(a: string, b: string)
    ensures AlnumOf(a + b) == AlnumOf(a) + AlnumOf(b)
    decreases |a|
  {
    if a != [] {
      assert (a + b)[0] == a[0] && (a + b)[1..] == a[1..] + b;
      AlnumOfAppend(a[1..], b);
      Associative(if IsAlnum(a[0]) then [a[0]] else [], AlnumOf(a[1..]), AlnumOf(b));
    } else {
      assert a + b == b;
    }
  }

  lemma {:induction false} AlnumOfSpace(s: string)
    requires AllSpace(s)
    ensures AlnumOf(s) == []
    decreases |s|
  {
    if s != [] {
      assert AllSpace(s[1..]) by {
        forall i | 0 <= i < |s[1..]| ensures IsSpace(s[1..][i]) { assert s[1..][i] == s[i + 1]; }
      }
      AlnumOfSpace(s[1..]);
    }
  }

  /** Text made of `[a-z0-9]` and single spaces is its own collapse. */
  lemma {:induction false} CollapseOfCollapsed(s: string)
    requires AlnumOrSpace(s) && SingleSpaced(s)
    ensures Collapse(s) == s
    decreases |s|
  {
    if s != [] {
      var t := s[1..];
      assert forall i :: 0 <= i < |t| ==> t[i] == s[i + 1];
      CollapseOfCollapsed(t);
      if !IsAlnum(s[0]) && t != [] {
        assert IsAlnum(s[0]) || IsAlnum(s[1]);
        assert IsAlnum(t[0]);
        assert DropRun(t) == t;
      }
    }
  }

  /** A clean text goes through lower-casing, collapsing and stripping unchanged. */
  lemma CleanIsFixed(n: string)
    requires Clean(n)
    ensures Strip(Collapse(Lower(n))) == n
  {
    LowerOfLowercase(n);
    CollapseOfCollapsed(n);
    EndsNotSpace(n);
    StripUnspaced(n);
  }

  lemma LowerOfLowercase(n: string)
    requires AlnumOrSpace(n)
    ensures Lower(n) == n
  {
    var l := Lower(n);
    forall k | 0 <= k < |n| ensures l[k] == n[k] {
      assert IsAlnum(n[k]) || n[k] == ' ';
    }
  }

  lemma EndsNotSpace(n: string)
    requires Clean(n)
    ensures n == [] || (!IsSpace(n[0]) && !IsSpace(n[|n| - 1]))
  {
    if n != [] {
      assert IsAlnum(n[0]) && IsAlnum(n[|n| - 1]);
    }
  }

  /** `normalize` is idempotent. */
  lemma NormalizeIdempotent(text: Option<string>)
    ensures Normalize(Some(Normalize(text))) == Normalize(text)
  {
    NormalizeIsClean(text);
    var n := Normalize(text);
    if n != "" {
      CleanIsFixed(n);
    }
  }

  /** The six fields `explain_vulnerability` always returns. */
  datatype Explanation = Explanation(title: Json, summary: Json, details: Json, remediation: Json,
                                     remediationShort: Json, examples: Json)

  /** `item.get(k1) or item.get(k2) or … or default` */
  function FirstTruthy(item: seq<(string, Json)>, keys: seq<string>, default: Json): Json {
    if keys == [] then default
    else match Get(item, keys[0])
      case Some(v) => if Truthy(v) then v else FirstTruthy(item, keys[1..], default)
      case None => FirstTruthy(item, keys[1..], default)
  }

  /** The `or` chain yields the value of the first key whose value is truthy, or the default when there is none. */
  lemma {:induction false} FirstTruthyIsFirst(item: seq<(string, Json)>, keys: seq<string>, default: Json)
    ensures var r := FirstTruthy(item, keys, default);
      && ((forall k :: 0 <= k < |keys| ==> !(Get(item, keys[k]).Some? && Truthy(Get(item, keys[k]).value))) ==> r == default)
      && (forall k :: 0 <= k < |keys| && Get(item, keys[k]).Some? && Truthy(Get(item, keys[k]).value)
            && (forall j :: 0 <= j < k ==> !(Get(item, keys[j]).Some? && Truthy(Get(item, keys[j]).value)))
            ==> r == Get(item, keys[k]).value)
  {
    if keys != [] {
      FirstTruthyIsFirst(item, keys[1..], default);
      var tail := keys[1..];
      assert forall k :: 1 <= k < |keys| ==> keys[k] == tail[k - 1];
      forall k | 0 <= k < |keys| && Get(item, keys[k]).Some? && Truthy(Get(item, keys[k]).value)
            && (forall j :: 0 <= j < k ==> !(Get(item, keys[j]).Some? && Truthy(Get(item, keys[j]).value)))
        ensures FirstTruthy(item, keys, default) == Get(item, keys[k]).value
      {
        if k > 0 {
          assert !(Get(item, keys[0]).Some? && Truthy(Get(item, keys[0]).value));
          forall j | 0 <= j < k - 1 ensures !(Get(item, tail[j]).Some? && Truthy(Get(item, tail[j]).value)) {
            assert tail[j] == keys[j + 1];
          }
          assert tail[k - 1] == keys[k];
        }
      }
    }
  }

  /** `format_response(item, key)` */
  function FormatResponse(item: seq<(string, Json)>, key: string): Explanation {
    Explanation(
      FirstTruthy(item, ["title"], JStr(key)),
      FirstTruthy(item, ["for_humans", "summary", "description"], JStr("")),
      FirstTruthy(item, ["for_experts", "technical_description"], JStr("")),
      FirstTruthy(item, ["remediation", "solution", "remediation_short"], JStr("")),
      FirstTruthy(item, ["remediation_short", "remediation", "quick_fix"], JStr("")),
      FirstTruthy(item, ["examples"], JObj([])))
  }

  /** None of `keys` holds a truthy value in `item`. */
  predicate NoTruthy(item: seq<(string, Json)>, keys: seq<string>) {
    forall k :: 0 <= k < |keys| ==> !(Get(item, keys[k]).Some? && Truthy(Get(item, keys[k]).value))
  }

  /**
   * Any item without a truthy title is titled by its key, one with a truthy title
   * keeps it; each other field is "" (or `{}` for the examples) when none of its
   * keys holds a truthy value.
   */
  lemma FormatResponseDefaults(item: seq<(string, Json)>, key: string)
    ensures var r := FormatResponse(item, key);
      && (NoTruthy(item, ["title"]) ==> r.title == JStr(key))
      && (!NoTruthy(item, ["title"]) ==> r.title == Get(item, "title").value)
      && (NoTruthy(item, ["for_humans", "summary", "description"]) ==> r.summary == JStr(""))
      && (NoTruthy(item, ["for_experts", "technical_description"]) ==> r.details == JStr(""))
      && (NoTruthy(item, ["remediation", "solution", "remediation_short"]) ==> r.remediation == JStr(""))
      && (NoTruthy(item, ["remediation_short", "remediation", "quick_fix"]) ==> r.remediationShort == JStr(""))
      && (NoTruthy(item, ["examples"]) ==> r.examples == JObj([]))
    ensures FormatResponse([], key) == Explanation(JStr(key), JStr(""), JStr(""), JStr(""), JStr(""), JObj([]))
  {
    FirstTruthyOfOne(item, "title", JStr(key));
    OnlyDefault(item, ["for_humans", "summary", "description"], JStr(""));
    OnlyDefault(item, ["for_experts", "technical_description"], JStr(""));
    OnlyDefault(item, ["remediation", "solution", "remediation_short"], JStr(""));
    OnlyDefault(item, ["remediation_short", "remediation", "quick_fix"], JStr(""));
    FirstTruthyOfOne(item, "examples", JObj([]));
    OnlyDefault([], ["title"], JStr(key));
    OnlyDefault([], ["for_humans", "summary", "description"], JStr(""));
    OnlyDefault([], ["for_experts", "technical_description"], JStr(""));
    OnlyDefault([], ["remediation", "solution", "remediation_short"], JStr(""));
    OnlyDefault([], ["remediation_short", "remediation", "quick_fix"], JStr(""));
    OnlyDefault([], ["examples"], JObj([]));
  }

  /** A chain with no truthy value gives its default. */
  lemma OnlyDefault(item: seq<(string, Json)>, keys: seq<string>, default: Json)
    ensures NoTruthy(item, keys) ==> FirstTruthy(item, keys, default) == default
  {
    FirstTruthyIsFirst(item, keys, default);
  }

  /** A one-key chain gives the key's value when truthy and the default otherwise. */
  lemma FirstTruthyOfOne(item: seq<(string, Json)>, key: string, default: Json)
    ensures NoTruthy(item, [key]) ==> FirstTruthy(item, [key], default) == default
    ensures !NoTruthy(item, [key]) ==> FirstTruthy(item, [key], default) == Get(item, key).value
  {
    FirstTruthyIsFirst(item, [key], default);
  }

  /** The keyword map of `explain_vulnerability`, in order. */
  const KeywordMap: seq<(string, string)> := [
    ("x-content-type-options", "x_content_type_options_missing"),
    ("x content type options", "x_content_type_options_missing"),
    ("strict-transport-security", "strict_transport_security_missing"),
    ("hsts", "strict_transport_security_missing"),
    ("x-frame-options", "x_frame_options_missing"),
    ("x frame options", "x_frame_options_missing"),
    ("reflected xss", "reflected_xss"),
    ("sql injection", "sql_injection")]

  /** The database key of the first keyword, in map order, found in the name. */
  function FirstKeyword(name: string, keywords: seq<(string, string)>): Option<string> {
    if keywords == [] then None
    else if Contains(name, keywords[0].0) then Some(keywords[0].1)
    else FirstKeyword(name, keywords[1..])
  }

  lemma {:induction false} FirstKeywordIsFirst(name: string, keywords: seq<(string, string)>)
    ensures var r := FirstKeyword(name, keywords);
      && (r.None? <==> forall k :: 0 <= k < |keywords| ==> !Contains(name, keywords[k].0))
      && (r.Some? ==> exists k :: 0 <= k < |keywords| && Contains(name, keywords[k].0) && r.value == keywords[k].1
                               && forall j :: 0 <= j < k ==> !Contains(name, keywords[j].0))
  {
    if keywords != [] {
      FirstKeywordIsFirst(name, keywords[1..]);
      var tail := keywords[1..];
      assert forall k :: 1 <= k < |keywords| ==> keywords[k] == tail[k - 1];
      var r := FirstKeyword(name, keywords);
      if !Contains(name, keywords[0].0) && r.Some? {
        var k :| 0 <= k < |tail| && Contains(name, tail[k].0) && r.value == tail[k].1
                 && forall j :: 0 <= j < k ==> !Contains(name, tail[j].0);
        assert keywords[k + 1] == tail[k];
        forall j | 0 <= j < k + 1 ensures !Contains(name, keywords[j].0) {
          if j > 0 { assert keywords[j] == tail[j - 1]; }
        }
      }
    }
  }

  /** The outcome of a pass: a match, no match, or an exception. */
  datatype Pass = Match(e: Explanation) | NoMatch | Raises

  /** The keyword pass: only the first matching keyword is tried; it matches when the database holds a truthy item under its key. */
  function KeywordPass(db: seq<(string, seq<(string, Json)>)>, name: string): Pass {
    match FirstKeyword(name, KeywordMap)
    case None => NoMatch
    case Some(dbKey) =>
      var item := GetItem(db, dbKey);
      if item.Some? && item.value != [] then Match(FormatResponse(item.value, dbKey)) else NoMatch
  }

  /** `VULN_DB.get(key)` */
  function GetItem(db: seq<(string, seq<(string, Json)>)>, key: string): (r: Option<seq<(string, Json)>>)
    ensures r.Some? ==> exists i :: 0 <= i < |db| && db[i].0 == key && db[i].1 == r.value
    ensures r.None? ==> forall i :: 0 <= i < |db| ==> db[i].0 != key
  {
    if db == [] then None
    else if db[0].0 == key then Some(db[0].1)
    else
      var r := GetItem(db[1..], key);
      assert r.Some? ==> db[1..] == db[1..] && (exists i :: 0 <= i < |db[1..]| && db[1..][i].0 == key && db[1..][i].1 == r.value);
      assert forall i :: 1 <= i < |db| ==> db[i] == db[1..][i - 1];
      r
  }

  /** The lower-cased title of an item: "" when absent or falsy, None when it is a truthy non-string (`.lower()` raises). */
  function ItemTitle(item: seq<(string, Json)>): Option<string> {
    match Get(item, "title")
    case None => Some("")
    case Some(t) => if !Truthy(t) then Some("") else if t.JStr? then Some(Lower(t.s)) else None
  }

  /** The title pass: the first entry whose non-empty lower-cased title occurs in the name. */
  function TitlePass(db: seq<(string, seq<(string, Json)>)>, name: string): Pass {
    if db == [] then NoMatch
    else match ItemTitle(db[0].1)
      case None => Raises
      case Some(title) =>
        if title != "" && Contains(name, title) then Match(FormatResponse(db[0].1, db[0].0))
        else TitlePass(db[1..], name)
  }

  predicate TitleMatches(entry: (string, seq<(string, Json)>), name: string) {
    var t := ItemTitle(entry.1);
    t.Some? && t.value != "" && Contains(name, t.value)
  }

  /** A title match is the first entry whose title occurs in the name; no earlier entry matched or raised. */
  lemma TitlePassIsFirst(db: seq<(string, seq<(string, Json)>)>, name: string)
    ensures var r := TitlePass(db, name);
      && (r.NoMatch? ==> forall k :: 0 <= k < |db| ==> !TitleMatches(db[k], name) && ItemTitle(db[k].1).Some?)
      && (r.Match? ==> exists k :: 0 <= k < |db| && TitleMatches(db[k], name) && r.e == FormatResponse(db[k].1, db[k].0)
                               && forall j :: 0 <= j < k ==> !TitleMatches(db[j], name) && ItemTitle(db[j].1).Some?)
  {
    TitleNoMatchCoversAll(db, name);
    TitleMatchIsFirst(db, name);
  }

  lemma {:induction false} TitleNoMatchCoversAll(db: seq<(string, seq<(string, Json)>)>, name: string)
    ensures TitlePass(db, name).NoMatch? ==> forall k :: 0 <= k < |db| ==> !TitleMatches(db[k], name) && ItemTitle(db[k].1).Some?
  {
    if db != [] && ItemTitle(db[0].1).Some? && !TitleMatches(db[0], name) {
      var tail := db[1..];
      TitleNoMatchCoversAll(tail, name);
      if TitlePass(db, name).NoMatch? {
        forall k | 0 <= k < |db| ensures !TitleMatches(db[k], name) && ItemTitle(db[k].1).Some? {
          if k > 0 { assert db[k] == tail[k - 1]; }
        }
      }
    }
  }

  lemma {:induction false} TitleMatchIsFirst(db: seq<(string, seq<(string, Json)>)>, name: string)
    ensures var r := TitlePass(db, name);
      r.Match? ==> exists k :: 0 <= k < |db| && TitleMatches(db[k], name) && r.e == FormatResponse(db[k].1, db[k].0)
                               && forall j :: 0 <= j < k ==> !TitleMatches(db[j], name) && ItemTitle(db[j].1).Some?
  {
    if db != [] && ItemTitle(db[0].1).Some? && !TitleMatches(db[0], name) {
      var tail := db[1..];
      TitleMatchIsFirst(tail, name);
      var r := TitlePass(db, name);
      assert r == TitlePass(tail, name);
      if r.Match? {
        var k :| 0 <= k < |tail| && TitleMatches(tail[k], name) && r.e == FormatResponse(tail[k].1, tail[k].0)
                 && forall j :: 0 <= j < k ==> !TitleMatches(tail[j], name) && ItemTitle(tail[j].1).Some?;
        assert db[k + 1] == tail[k];
        forall j | 0 <= j < k + 1 ensures !TitleMatches(db[j], name) && ItemTitle(db[j].1).Some? {
          if j > 0 { assert db[j] == tail[j - 1]; }
        }
        assert TitleMatches(db[k + 1], name) && r.e == FormatResponse(db[k + 1].1, db[k + 1].0);
      }
    } else if db != [] && TitleMatches(db[0], name) {
      assert TitlePass(db, name).e == FormatResponse(db[0].1, db[0].0);
    }
  }

  /** The key pass: the first entry whose key, with `_` read as a space, occurs in the name. */
  function KeyPass(db: seq<(string, seq<(string, Json)>)>, name: string): Pass {
    if db == [] then NoMatch
    else if Contains(name, ReplaceChar(db[0].0, '_', ' ')) then Match(FormatResponse(db[0].1, db[0].0))
    else KeyPass(db[1..], name)
  }

  lemma {:induction false} KeyPassIsFirst(db: seq<(string, seq<(string, Json)>)>, name: string)
    ensures var r := KeyPass(db, name);
      && !r.Raises?
      && (r.NoMatch? <==> forall k :: 0 <= k < |db| ==> !Contains(name, ReplaceChar(db[k].0, '_', ' ')))
      && (r.Match? ==> exists k :: 0 <= k < |db| && Contains(name, ReplaceChar(db[k].0, '_', ' '))
                               && r.e == FormatResponse(db[k].1, db[k].0)
                               && forall j :: 0 <= j < k ==> !Contains(name, ReplaceChar(db[j].0, '_', ' ')))
  {
    if db != [] {
      KeyPassIsFirst(db[1..], name);
      var tail := db[1..];
      assert forall k :: 1 <= k < |db| ==> db[k] == tail[k - 1];
      var r := KeyPass(db, name);
      if !Contains(name, ReplaceChar(db[0].0, '_', ' ')) && r.Match? {
        var k :| 0 <= k < |tail| && Contains(name, ReplaceChar(tail[k].0, '_', ' ')) && r.e == FormatResponse(tail[k].1, tail[k].0)
                 && forall j :: 0 <= j < k ==> !Contains(name, ReplaceChar(tail[j].0, '_', ' '));
        assert db[k + 1] == tail[k];
        forall j | 0 <= j < k + 1 ensures !Contains(name, ReplaceChar(db[j].0, '_', ' ')) {
          if j > 0 { assert db[j] == tail[j - 1]; }
        }
      }
    }
  }

  /** The answer when nothing matches: the name (or "Inconnue") and fixed texts. */
  function Fallback(vulnName: Option<string>): Explanation {
    Explanation(
      JStr(if vulnName.Some? && vulnName.value != "" then vulnName.value else "Inconnue"),
      JStr("Aucune correspondance trouvée dans la base."),
      JStr("Aucune donnée technique disponible."),
      JStr("Aucune recommandation disponible."),
      JStr("Consultez les logs serveur."),
      JObj([]))
  }

  /** The three passes, in order, on the lower-cased name. */
  function Lookup(db: seq<(string, seq<(string, Json)>)>, name: string): Pass {
    var k := KeywordPass(db, name);
    if k.Match? then k
    else
      var t := TitlePass(db, name);
      if !t.NoMatch? then t else KeyPass(db, name)
  }

  /** `explain_vulnerability(vuln_name)` against the database `db`; None when a title's `.lower()` raises. */
  function ExplainVulnerability(db: seq<(string, seq<(string, Json)>)>, vulnName: Option<string>): Option<Explanation> {
    match Lookup(db, Lower(vulnName.GetOr("")))
    case Match(e) => Some(e)
    case NoMatch => Some(Fallback(vulnName))
    case Raises => None
  }

  /** Without a database every name gets the fallback; a missing name is titled "Inconnue". */
  lemma EmptyDatabaseFallsBack(vulnName: Option<string>)
    ensures ExplainVulnerability([], vulnName) == Some(Fallback(vulnName))
    ensures ExplainVulnerability([], None) == Some(Fallback(None)) && Fallback(None).title == JStr("Inconnue")
  {
    var name := Lower(vulnName.GetOr(""));
    assert KeywordPass([], name) == NoMatch by {
      FirstKeywordIsFirst(name, KeywordMap);
    }
    assert KeywordPass([], Lower("")) == NoMatch;
  }

  /** Matching sees only the lower-cased name: two names equal up to ASCII case find the same entry. */
  lemma LookupIgnoresCase(db: seq<(string, seq<(string, Json)>)>, a: string, b: string)
    requires Lower(a) == Lower(b)
    ensures ExplainVulnerability(db, Some(a)).Some? == ExplainVulnerability(db, Some(b)).Some?
    ensures Lookup(db, Lower(a)).Match? ==> ExplainVulnerability(db, Some(a)) == ExplainVulnerability(db, Some(b))
  {
  }

  /**
   * A keyword match whose database key is missing or holds an empty item ends the keyword pass: later
   * keywords are not tried, though the title or key passes may still match.
   */
  lemma {:induction false} KeywordPassStopsAtFirstKeyword(db: seq<(string, seq<(string, Json)>)>, name: string)
    ensures var r := KeywordPass(db, name);
      && (r.Match? ==> exists k :: 0 <= k < |KeywordMap| && Contains(name, KeywordMap[k].0)
                               && (forall j :: 0 <= j < k ==> !Contains(name, KeywordMap[j].0))
                               && GetItem(db, KeywordMap[k].1).Some? && GetItem(db, KeywordMap[k].1).value != []
                               && r.e == FormatResponse(GetItem(db, KeywordMap[k].1).value, KeywordMap[k].1))
      && (forall k :: (0 <= k < |KeywordMap| && Contains(name, KeywordMap[k].0)
                       && (forall j :: 0 <= j < k ==> !Contains(name, KeywordMap[j].0))
                       && (GetItem(db, KeywordMap[k].1).None? || GetItem(db, KeywordMap[k].1).value == []))
                      ==> r.NoMatch?)
  {
    FirstKeywordIsFirst(name, KeywordMap);
    var f := FirstKeyword(name, KeywordMap);
    forall k | 0 <= k < |KeywordMap| && Contains(name, KeywordMap[k].0)
               && (forall j :: 0 <= j < k ==> !Contains(name, KeywordMap[j].0))
      ensures f == Some(KeywordMap[k].1)
    {
      var k' :| 0 <= k' < |KeywordMap| && Contains(name, KeywordMap[k'].0) && f.value == KeywordMap[k'].1
                && forall j :: 0 <= j < k' ==> !Contains(name, KeywordMap[j].0);
      assert k' == k;
    }
  }
}

/**
 * Search alerts: which saved searches a new post matches, and the batched loop that notifies
 * each matching alert once.
 */
module SearchAlerts {
  import opened Optional
  import opened JsonValues
  import opened Sorting
  import opened Text
  import Categories

  type Id = string

  datatype Attribute = Attribute(key: string, value: string)
  datatype Alert = Alert(id: Id, userId: Id, query: Option<string>, filters: Json, cityId: Option<Id>, isActive: bool)
  datatype Post = Post(
    id: Id, title: string, description: Option<string>, approved: bool, isPost: bool,
    categoryId: Id, categoryName: string, cityId: Option<Id>, cityName: string,
    provinceId: Option<Id>, provinceName: string, neighborhoodId: Option<Id>, neighborhoodName: string,
    username: string, userName: string, price: Option<int>, priceType: string,
    isPromoted: bool, boostExpiresAt: Option<int>, hasImage: bool, hasVideo: bool, attributes: seq<Attribute>)
  datatype Notice = Notice(userId: Id, body: string, postId: Id, alertId: Id)

  // ---------------------------------------------------------------- words

  /** The white space of the query splitter and of `trim`. */
  predicate IsSpace(c: char) {
    c in "\t\n\r " || c == '\U{000B}' || c == '\U{000C}' || c == '\U{00A0}' || c == '\U{1680}'
    || '\U{2000}' <= c <= '\U{200A}' || c in {'\U{2028}', '\U{2029}', '\U{202F}', '\U{205F}', '\U{3000}', '\U{FEFF}'}
  }

  /** The same by code point: the tab to the carriage return, the space, and the wide and invisible ones. */
  lemma SpaceExactly(c: char)
    ensures IsSpace(c) <==> var n := c as int;
      9 <= n <= 13 || n in {32, 0xA0, 0x1680, 0x2028, 0x2029, 0x202F, 0x205F, 0x3000, 0xFEFF} || 0x2000 <= n <= 0x200A
  {
  }

  function TrimStart(s: string): string {
    if s != "" && IsSpace(s[0]) then TrimStart(s[1..]) else s
  }

  function TrimEnd(s: string): string {
    if s != "" && IsSpace(s[|s| - 1]) then TrimEnd(s[..|s| - 1]) else s
  }

  function Trim(s: string): string { TrimEnd(TrimStart(s)) }

  /** The length of the leading run without white space. */
  function WordLength(s: string): (n: nat)
    ensures n <= |s|
    ensures forall i :: 0 <= i < n ==> !IsSpace(s[i])
    ensures n < |s| ==> IsSpace(s[n])
  {
    if s == "" || IsSpace(s[0]) then 0 else 1 + WordLength(s[1..])
  }

  /** The words of a text: its maximal runs without white space. */
  function Words(s: string): seq<string> {
    if s == "" then []
    else if IsSpace(s[0]) then Words(s[1..])
    else [s[..WordLength(s)]] + Words(s[WordLength(s)..])
  }

  predicate Unspaced(w: string) { w != "" && forall i :: 0 <= i < |w| ==> !IsSpace(w[i]) }

  /** `w` stands in `s` at `i`, with white space or an end of the text on either side. */
  predicate IsRun(s: string, w: string, i: nat) {
    Unspaced(w) && OccursAt(s, w, i) && (i == 0 || IsSpace(s[i - 1])) && (i + |w| == |s| || IsSpace(s[i + |w|]))
  }

  /** A run of a text's tail is a run of the text, and the other way round. */
  lemma ShiftRun(s: string, n: nat, w: string, i: nat)
    requires n <= |s| && (i > 0 || (n > 0 && IsSpace(s[n - 1])))
    ensures IsRun(s[n..], w, i) <==> IsRun(s, w, n + i)
  {
    if n + i + |w| <= |s| {
      assert s[n..][i..i + |w|] == s[n + i..n + i + |w|];
    }
  }

  lemma RunsStartWithLetters(s: string, w: string, i: nat)
    requires IsRun(s, w, i)
    ensures i < |s| && !IsSpace(s[i])
  {
    hide IsSpace;
    assert w[0] == s[i];
  }

  lemma {:induction false} WordsAreRuns(s: string, w: string) returns (i: nat)
    requires w in Words(s)
    ensures IsRun(s, w, i)
  {
    hide IsSpace;
    var n := WordLength(s);
    if IsSpace(s[0]) {
      i := WordsAreRuns(s[1..], w);
      ShiftRun(s, 1, w, i);
      i := i + 1;
    } else if w == s[..n] {
      i := 0;
    } else {
      i := WordsAreRuns(s[n..], w);
      RunsStartWithLetters(s[n..], w, i);
      hide IsRun;
      ShiftRun(s, n, w, i);
      i := i + n;
    }
  }

  lemma {:induction false} RunsAreWords(s: string, w: string, i: nat)
    requires IsRun(s, w, i)
    ensures w in Words(s)
  {
    var n := WordLength(s);
    assert w[0] == s[i];
    if IsSpace(s[0]) {
      ShiftRun(s, 1, w, i - 1);
      RunsAreWords(s[1..], w, i - 1);
    } else if i == 0 {
      FirstRun(s, w);
    } else {
      assert i > n;
      ShiftRun(s, n, w, i - n);
      RunsAreWords(s[n..], w, i - n);
    }
  }

  lemma FirstRun(s: string, w: string)
    requires IsRun(s, w, 0)
    ensures w == s[..WordLength(s)]
  {
    assert forall k :: 0 <= k < |w| ==> s[k] == w[k];
  }

  /** The words of a text are its maximal runs without white space. */
  lemma WordsExactly(s: string, w: string)
    ensures w in Words(s) <==> exists i :: 0 <= i <= |s| && IsRun(s, w, i)
  {
    if w in Words(s) {
      var i := WordsAreRuns(s, w);
    } else if i :| 0 <= i <= |s| && IsRun(s, w, i) {
      RunsAreWords(s, w, i);
    }
  }

  /** `alertQueryMatches`, over the text normalisation `norm`. */
  predicate AlertQueryMatches(norm: string -> string, haystack: string, query: string) {
    var text := norm(haystack);
    var wanted := Trim(norm(query));
    if wanted == "" then true
    else
      var words := Words(wanted);
      if |words| <= 1 then Contains(text, wanted)
      else forall i :: 0 <= i < |words| ==> Contains(text, words[i])
  }

  lemma {:induction false} WordsOfTrimStart(s: string)
    ensures Words(TrimStart(s)) == Words(s)
  {
    if s != "" && IsSpace(s[0]) {
      WordsOfTrimStart(s[1..]);
    }
  }

  /** A trailing blank is in no word. */
  lemma {:induction false} WordsDropLastBlank(s: string)
    requires s != "" && IsSpace(s[|s| - 1])
    ensures Words(s[..|s| - 1]) == Words(s)
  {
    var t := s[..|s| - 1];
    if IsSpace(s[0]) {
      if t != "" {
        assert t[1..] == s[1..][..|s[1..]| - 1];
        WordsDropLastBlank(s[1..]);
      } else {
        assert s[1..] == "";
      }
    } else {
      var n := WordLength(s);
      SameWordLength(t, s);
      assert n <= |t| && t[..n] == s[..n];
      assert s[n..][..|s[n..]| - 1] == t[n..];
      WordsDropLastBlank(s[n..]);
      hide WordLength;
      assert Words(s) == [s[..n]] + Words(s[n..]);
    }
  }

  lemma {:induction false} SameWordLength(t: string, s: string)
    requires |s| == |t| + 1 && t == s[..|t|] && IsSpace(s[|t|])
    ensures WordLength(t) == WordLength(s)
  {
    if t != "" && !IsSpace(t[0]) {
      SameWordLength(t[1..], s[1..]);
    }
  }

  lemma {:induction false} WordsOfTrimEnd(s: string)
    ensures Words(TrimEnd(s)) == Words(s)
  {
    if s != "" && IsSpace(s[|s| - 1]) {
      WordsDropLastBlank(s);
      WordsOfTrimEnd(s[..|s| - 1]);
    }
  }

  lemma {:induction false} TrimEndKeepsStart(s: string)
    requires s != "" && !IsSpace(s[0])
    ensures TrimEnd(s) != "" && TrimEnd(s)[0] == s[0] && !IsSpace(TrimEnd(s)[|TrimEnd(s)| - 1])
  {
    if IsSpace(s[|s| - 1]) {
      TrimEndKeepsStart(s[..|s| - 1]);
    }
  }

  lemma {:induction false} TrimStartEnds(s: string)
    ensures TrimStart(s) == "" || !IsSpace(TrimStart(s)[0])
  {
    if s != "" && IsSpace(s[0]) {
      TrimStartEnds(s[1..]);
    }
  }

  lemma {:induction false} EndsInWord(s: string)
    requires s != "" && !IsSpace(s[|s| - 1])
    ensures |Words(s)| >= 1
  {
    if IsSpace(s[0]) {
      EndsInWord(s[1..]);
    }
  }

  /** A trimmed text with one word is that word. */
  lemma OneWord(s: string)
    requires s != "" && !IsSpace(s[0]) && !IsSpace(s[|s| - 1]) && |Words(s)| <= 1
    ensures Words(s) == [s]
  {
    var n := WordLength(s);
    if n < |s| {
      EndsInWord(s[n..]);
    } else {
      assert s[..n] == s && s[n..] == "";
    }
  }

  /** A query matches exactly when every one of its words occurs in the text. */
  lemma QueryMatchesAllWords(norm: string -> string, haystack: string, query: string)
    ensures AlertQueryMatches(norm, haystack, query)
       <==> forall i :: 0 <= i < |Words(norm(query))| ==> Contains(norm(haystack), Words(norm(query))[i])
  {
    var text := norm(query);
    var wanted := Trim(text);
    WordsOfTrimStart(text);
    WordsOfTrimEnd(TrimStart(text));
    assert Words(wanted) == Words(text);
    TrimStartEnds(text);
    if TrimStart(text) != "" {
      TrimEndKeepsStart(TrimStart(text));
      if |Words(wanted)| <= 1 {
        OneWord(wanted);
        assert Words(text)[0] == wanted;
      }
    }
  }

  // ---------------------------------------------------------------- one alert against one post

  function AttributeTexts(attributes: seq<Attribute>): seq<string> {
    seq(|attributes|, i requires 0 <= i < |attributes| => attributes[i].key + " " + attributes[i].value)
  }

  function Haystack(norm: string -> string, post: Post): string {
    Trim(Join([norm(post.title), norm(if post.description.Some? then post.description.value else ""),
               norm(post.categoryName), norm(post.cityName), norm(post.provinceName),
               norm(post.neighborhoodName), norm(post.username), norm(post.userName)]
              + AttributeTexts(post.attributes), ' '))
  }

  lemma Crosses(s: string, w: string, i: nat, m: nat)
    requires OccursAt(s, w, i) && i <= m < i + |w|
    ensures s[m] in w
  {
    assert s[i..i + |w|][m - i] == s[m];
  }

  /** A part without `c` lies on one side of it. */
  lemma OneSide(a: string, c: char, b: string, w: string, i: nat)
    requires w != "" && c !in w && OccursAt(a + [c] + b, w, i)
    ensures OccursAt(a, w, i) || (i > |a| && OccursAt(b, w, i - |a| - 1))
  {
    var s := a + [c] + b;
    if i <= |a| < i + |w| {
      Crosses(s, w, i, |a|);
    } else if i <= |a| {
      assert s[i..i + |w|] == a[i..i + |w|];
    } else {
      assert s[i..i + |w|] == b[i - |a| - 1..i - |a| - 1 + |w|];
    }
  }

  lemma ContainsBeside(a: string, c: char, b: string, w: string)
    requires w != "" && c !in w
    ensures Contains(a + [c] + b, w) <==> Contains(a, w) || Contains(b, w)
  {
    var s := a + [c] + b;
    if i :| 0 <= i <= |s| && OccursAt(s, w, i) {
      OneSide(a, c, b, w, i);
    }
    if i :| 0 <= i <= |a| && OccursAt(a, w, i) {
      assert s[i..i + |w|] == a[i..i + |w|];
      assert OccursAt(s, w, i);
    }
    if i :| 0 <= i <= |b| && OccursAt(b, w, i) {
      assert s[|a| + 1 + i..|a| + 1 + i + |w|] == b[i..i + |w|];
      assert OccursAt(s, w, |a| + 1 + i);
    }
  }

  lemma NothingInEmpty(w: string)
    requires w != ""
    ensures !Contains("", w)
  {
  }

  lemma {:induction false} ContainsJoin(parts: seq<string>, c: char, w: string)
    requires w != "" && c !in w
    ensures Contains(Join(parts, c), w) <==> exists k :: 0 <= k < |parts| && Contains(parts[k], w)
  {
    hide Contains;
    if parts == [] {
      NothingInEmpty(w);
    } else if |parts| > 1 {
      ContainsBeside(parts[0], c, Join(parts[1..], c), w);
      ContainsJoin(parts[1..], c, w);
      if Contains(Join(parts[1..], c), w) {
        var k :| 0 <= k < |parts[1..]| && Contains(parts[1..][k], w);
        assert Contains(parts[k + 1], w);
      }
      if k :| 1 <= k < |parts| && Contains(parts[k], w) {
        assert Contains(parts[1..][k - 1], w);
      }
    }
  }

  lemma {:induction false} ContainsTrimmed(s: string, w: string)
    requires Unspaced(w)
    ensures Contains(TrimStart(s), w) <==> Contains(s, w)
    ensures Contains(TrimEnd(s), w) <==> Contains(s, w)
    decreases |s|
  {
    hide Contains;
    NothingInEmpty(w);
    if s != "" && IsSpace(s[0]) {
      ContainsTrimmed(s[1..], w);
      assert s == "" + [s[0]] + s[1..];
      ContainsBeside("", s[0], s[1..], w);
    }
    if s != "" && IsSpace(s[|s| - 1]) {
      var n := |s| - 1;
      ContainsTrimmed(s[..n], w);
      assert s == s[..n] + [s[n]] + "";
      ContainsBeside(s[..n], s[n], "", w);
    }
  }

  ghost predicate InAttributes(attributes: seq<Attribute>, w: string) {
    exists k :: 0 <= k < |attributes| && (Contains(attributes[k].key, w) || Contains(attributes[k].value, w))
  }

  lemma AttributeTextsContain(attributes: seq<Attribute>, w: string)
    requires Unspaced(w)
    ensures (exists k :: 0 <= k < |AttributeTexts(attributes)| && Contains(AttributeTexts(attributes)[k], w)) <==> InAttributes(attributes, w)
  {
    hide Contains;
    forall k | 0 <= k < |attributes|
      ensures Contains(AttributeTexts(attributes)[k], w) <==> Contains(attributes[k].key, w) || Contains(attributes[k].value, w)
    {
      assert attributes[k].key + " " + attributes[k].value == attributes[k].key + [' '] + attributes[k].value;
      ContainsBeside(attributes[k].key, ' ', attributes[k].value, w);
    }
  }

  /** The text a query is looked up in: a word occurs in it exactly if it occurs in one of these ten places. */
  lemma {:induction false} HaystackHoldsExactly(norm: string -> string, post: Post, w: string)
    requires Unspaced(w)
    ensures Contains(Haystack(norm, post), w) <==>
      || Contains(norm(post.title), w) || (match post.description case Some(d) => Contains(norm(d), w) case None => Contains(norm(""), w))
      || Contains(norm(post.categoryName), w) || Contains(norm(post.cityName), w) || Contains(norm(post.provinceName), w)
      || Contains(norm(post.neighborhoodName), w) || Contains(norm(post.username), w) || Contains(norm(post.userName), w)
      || InAttributes(post.attributes, w)
  {
    hide Contains;
    hide InAttributes;
    hide AttributeTexts;
    var named := [norm(post.title), norm(if post.description.Some? then post.description.value else ""),
               norm(post.categoryName), norm(post.cityName), norm(post.provinceName),
               norm(post.neighborhoodName), norm(post.username), norm(post.userName)];
    var attrs := AttributeTexts(post.attributes);
    var text := Join(named + attrs, ' ');
    assert Haystack(norm, post) == Trim(text);
    ContainsTrimmed(text, w);
    ContainsTrimmed(TrimStart(text), w);
    ContainsJoin(named + attrs, ' ', w);
    AttributeTextsContain(post.attributes, w);
    SplitWitness(named, attrs, w);
    NamedPlaces(named, w);
  }

  lemma NamedPlaces(named: seq<string>, w: string)
    requires |named| == 8
    ensures (exists k :: 0 <= k < |named| && Contains(named[k], w)) <==>
      || Contains(named[0], w) || Contains(named[1], w) || Contains(named[2], w) || Contains(named[3], w)
      || Contains(named[4], w) || Contains(named[5], w) || Contains(named[6], w) || Contains(named[7], w)
  {
    hide Contains;
  }

  lemma SplitWitness(a: seq<string>, b: seq<string>, w: string)
    ensures (exists k :: 0 <= k < |a + b| && Contains((a + b)[k], w)) <==>
      (exists k :: 0 <= k < |a| && Contains(a[k], w)) || (exists k :: 0 <= k < |b| && Contains(b[k], w))
  {
    hide Contains;
    if k :| 0 <= k < |a| && Contains(a[k], w) {
      assert Contains((a + b)[k], w);
    }
    if k :| 0 <= k < |b| && Contains(b[k], w) {
      assert Contains((a + b)[|a| + k], w);
    }
  }

  function Field(filters: Json, name: string): Json {
    if filters.JObject? && name in filters.fields then filters.fields[name] else JNull
  }

  /** `new Map(...)` over the post's attributes: a later pair of the same key wins. */
  function LastValue(attributes: seq<Attribute>, key: string): Option<string> {
    if attributes == [] then None
    else
      var last := attributes[|attributes| - 1];
      if last.key == key then Some(last.value) else LastValue(attributes[..|attributes| - 1], key)
  }

  /** Every wanted attribute is a string and is the post's value for that key. */
  predicate AttributesMatch(attributes: seq<Attribute>, wanted: Json) {
    wanted.JObject? ==> forall k :: k in wanted.fields ==>
      wanted.fields[k].JString? && LastValue(attributes, k) == Some(wanted.fields[k].text)
  }

  /** The filters with a single expected value. */
  predicate PlainFiltersMatch(f: Json, post: Post, now: int) {
    var price := (if post.price.Some? then post.price.value else 0) as real;
    && (Field(f, "provinceId").JString? ==> post.provinceId == Some(Field(f, "provinceId").text))
    && (Field(f, "neighborhoodId").JString? ==> post.neighborhoodId == Some(Field(f, "neighborhoodId").text))
    && (Field(f, "priceType").JString? ==> post.priceType == Field(f, "priceType").text)
    && (Field(f, "minPrice").JNumber? ==> price >= Field(f, "minPrice").number)
    && (Field(f, "maxPrice").JNumber? ==> price <= Field(f, "maxPrice").number)
    && (Field(f, "onlyPromoted") == JBool(true) ==>
          post.isPromoted && post.boostExpiresAt.Some? && post.boostExpiresAt.value > now)
    && (Field(f, "onlyImage") == JBool(true) ==> post.hasImage)
    && (Field(f, "onlyVideo") == JBool(true) ==> post.hasVideo)
  }

  /** Active, and for every city or for the post's city. */
  predicate Candidate(post: Post, alert: Alert) {
    alert.isActive && (alert.cityId.None? || (post.cityId.Some? && post.cityId.value != "" && alert.cityId == post.cityId))
  }

  /** The post's category is the wanted one or below it. */
  ghost predicate CategoryMatches(categories: seq<Categories.Row>, filters: Json, post: Post) {
    Field(filters, "categoryId").JString? ==>
      Categories.Reaches(categories, Field(filters, "categoryId").text, post.categoryId)
  }

  /** All words of the query occur in the post's text. */
  predicate WordsOccur(norm: string -> string, alert: Alert, post: Post) {
    alert.query.Some? && alert.query.value != "" ==>
      forall i :: 0 <= i < |Words(norm(alert.query.value))| ==>
        Contains(norm(Haystack(norm, post)), Words(norm(alert.query.value))[i])
  }

  /** What it means that an alert asked for a post: all its words, and all its filters. */
  ghost predicate Wants(norm: string -> string, categories: seq<Categories.Row>, alert: Alert, post: Post, now: int) {
    && Candidate(post, alert)
    && WordsOccur(norm, alert, post)
    && CategoryMatches(categories, alert.filters, post)
    && PlainFiltersMatch(alert.filters, post, now)
    && AttributesMatch(post.attributes, Field(alert.filters, "attributes"))
  }

  /** The same, with the query's test in the code's terms. */
  lemma WantsIs(norm: string -> string, categories: seq<Categories.Row>, alert: Alert, post: Post, now: int)
    requires Candidate(post, alert)
    ensures Wants(norm, categories, alert, post, now) <==>
      && (alert.query.Some? && alert.query.value != "" ==> AlertQueryMatches(norm, Haystack(norm, post), alert.query.value))
      && CategoryMatches(categories, alert.filters, post)
      && PlainFiltersMatch(alert.filters, post, now)
      && AttributesMatch(post.attributes, Field(alert.filters, "attributes"))
  {
    hide AlertQueryMatches;
    hide Haystack;
    hide CategoryMatches;
    hide PlainFiltersMatch;
    hide AttributesMatch;
    hide Candidate;
    hide Words;
    hide Contains;
    if alert.query.Some? && alert.query.value != "" {
      QueryMatchesAllWords(norm, Haystack(norm, post), alert.query.value);
    }
  }

  // ---------------------------------------------------------------- what an alert asks for, field by field

  /** A filter is set to a value. */
  ghost predicate Sets(filters: Json, name: string, value: Json) {
    filters.JObject? && name in filters.fields && filters.fields[name] == value
  }

  /** The last of the post's attributes with this key has this value. */
  ghost predicate HasAttribute(attributes: seq<Attribute>, key: string, value: string) {
    exists i :: 0 <= i < |attributes| && attributes[i] == Attribute(key, value)
      && forall j :: i < j < |attributes| ==> attributes[j].key != key
  }

  /** A post without a price counts as free. */
  ghost function PriceOf(post: Post): real { match post.price case None => 0.0 case Some(p) => p as real }

  /** Every filter that is set holds of the post's own columns. */
  ghost predicate FiltersHold(f: Json, post: Post, now: int) {
    && (forall id :: Sets(f, "provinceId", JString(id)) ==> post.provinceId == Some(id))
    && (forall id :: Sets(f, "neighborhoodId", JString(id)) ==> post.neighborhoodId == Some(id))
    && (forall t :: Sets(f, "priceType", JString(t)) ==> post.priceType == t)
    && (forall least :: Sets(f, "minPrice", JNumber(least)) ==> least <= PriceOf(post))
    && (forall most :: Sets(f, "maxPrice", JNumber(most)) ==> PriceOf(post) <= most)
    && (Sets(f, "onlyPromoted", JBool(true)) ==> post.isPromoted && exists end :: post.boostExpiresAt == Some(end) && now < end)
    && (Sets(f, "onlyImage", JBool(true)) ==> post.hasImage)
    && (Sets(f, "onlyVideo", JBool(true)) ==> post.hasVideo)
  }

  ghost predicate AttributesHold(f: Json, attributes: seq<Attribute>) {
    forall wanted, key :: Sets(f, "attributes", JObject(wanted)) && key in wanted ==>
      exists value :: wanted[key] == JString(value) && HasAttribute(attributes, key, value)
  }

  ghost predicate CategoryHolds(categories: seq<Categories.Row>, f: Json, post: Post) {
    forall id :: Sets(f, "categoryId", JString(id)) ==> Categories.Reaches(categories, id, post.categoryId)
  }

  /** Every word of the alert's query occurs in the post's text. */
  ghost predicate QueryHolds(norm: string -> string, alert: Alert, post: Post) {
    forall query, word :: alert.query == Some(query) && query != "" && word in Words(norm(query)) ==>
      Contains(norm(Haystack(norm, post)), word)
  }

  /** The alert is active, its city is any or the post's, and query, category, attributes and filters all hold. */
  ghost predicate AsksFor(norm: string -> string, categories: seq<Categories.Row>, alert: Alert, post: Post, now: int) {
    && alert.isActive && (alert.cityId == None || (alert.cityId == post.cityId && alert.cityId != Some("")))
    && QueryHolds(norm, alert, post) && CategoryHolds(categories, alert.filters, post)
    && FiltersHold(alert.filters, post, now) && AttributesHold(alert.filters, post.attributes)
  }

  lemma FieldIs(f: Json, name: string)
    ensures forall value :: value != JNull ==> (Sets(f, name, value) <==> Field(f, name) == value)
  {
  }

  lemma {:induction false} LastValueExactly(attributes: seq<Attribute>, key: string, value: string)
    ensures LastValue(attributes, key) == Some(value) <==> HasAttribute(attributes, key, value)
  {
    if attributes != [] {
      LastValueExactly(attributes[..|attributes| - 1], key, value);
      LastAttribute(attributes, key, value);
      hide HasAttribute;
    }
  }

  lemma LastAttribute(attributes: seq<Attribute>, key: string, value: string)
    requires attributes != []
    ensures var n := |attributes| - 1;
      HasAttribute(attributes, key, value) <==>
        if attributes[n].key == key then attributes[n].value == value else HasAttribute(attributes[..n], key, value)
  {
    var n := |attributes| - 1;
    var most := attributes[..n];
    if attributes[n].key != key && HasAttribute(most, key, value) {
      var i :| 0 <= i < n && most[i] == Attribute(key, value) && forall j :: i < j < n ==> most[j].key != key;
      assert attributes[i] == Attribute(key, value);
      assert forall j :: i < j < n ==> attributes[j] == most[j];
    }
    if attributes[n] == Attribute(key, value) {
      assert HasAttribute(attributes, key, value);
    }
  }

  lemma FiltersHoldExactly(f: Json, post: Post, now: int)
    ensures PlainFiltersMatch(f, post, now) <==> FiltersHold(f, post, now)
  {
    FieldIs(f, "provinceId");
    FieldIs(f, "neighborhoodId");
    FieldIs(f, "priceType");
    FieldIs(f, "minPrice");
    FieldIs(f, "maxPrice");
    FieldIs(f, "onlyPromoted");
    FieldIs(f, "onlyImage");
    FieldIs(f, "onlyVideo");
    hide Field;
    hide Sets;
  }

  lemma AttributesHoldExactly(f: Json, attributes: seq<Attribute>)
    ensures AttributesMatch(attributes, Field(f, "attributes")) <==> AttributesHold(f, attributes)
  {
    FieldIs(f, "attributes");
    forall key, value ensures LastValue(attributes, key) == Some(value) <==> HasAttribute(attributes, key, value) {
      LastValueExactly(attributes, key, value);
    }
    hide HasAttribute;
    hide LastValue;
    hide Field;
    hide Sets;
    var field := Field(f, "attributes");
    if field.JObject? {
      assert Sets(f, "attributes", JObject(field.fields));
    }
  }

  lemma QueryAndCategoryHold(norm: string -> string, categories: seq<Categories.Row>, alert: Alert, post: Post)
    ensures WordsOccur(norm, alert, post) <==> QueryHolds(norm, alert, post)
    ensures CategoryMatches(categories, alert.filters, post) <==> CategoryHolds(categories, alert.filters, post)
  {
    FieldIs(alert.filters, "categoryId");
    hide Field;
    hide Sets;
    hide Contains;
    hide Haystack;
    hide Words;
  }

  /** The checks of the code come down to what the alert asks for. */
  lemma WantsExactly(norm: string -> string, categories: seq<Categories.Row>, alert: Alert, post: Post, now: int)
    ensures Wants(norm, categories, alert, post, now) <==> AsksFor(norm, categories, alert, post, now)
  {
    FiltersHoldExactly(alert.filters, post, now);
    AttributesHoldExactly(alert.filters, post.attributes);
    QueryAndCategoryHold(norm, categories, alert, post);
    hide PlainFiltersMatch;
    hide AttributesMatch;
    hide WordsOccur;
    hide CategoryMatches;
    hide FiltersHold;
    hide AttributesHold;
    hide QueryHolds;
    hide CategoryHolds;
  }

  // ---------------------------------------------------------------- all alerts against one post

  ghost predicate DistinctIds(alerts: seq<Alert>) {
    forall i, j :: 0 <= i < j < |alerts| ==> alerts[i].id != alerts[j].id
  }

  function Candidates(alerts: seq<Alert>, post: Post): seq<Alert> {
    Filter(alerts, (a: Alert) => Candidate(post, a))
  }

  function PositionOf(alerts: seq<Alert>, id: Id): (i: nat)
    ensures i <= |alerts|
    ensures i < |alerts| ==> alerts[i].id == id
    ensures forall j :: 0 <= j < i ==> alerts[j].id != id
  {
    FirstWhere(alerts, (a: Alert) => a.id == id)
  }

  /** `findMany` in id order: from after the cursor, at most `take`. The table is listed in id order. */
  function Fetch(alerts: seq<Alert>, post: Post, cursor: Option<Id>, take: nat): seq<Alert> {
    var found := Candidates(alerts, post);
    var start := if cursor.None? then 0 else PositionOf(found, cursor.value) + 1;
    Take(if start <= |found| then found[start..] else [], take)
  }

  ghost function Keep(norm: string -> string, categories: seq<Categories.Row>, post: Post, now: int,
                      notified: set<(Id, Id)>): Alert -> bool
  {
    (a: Alert) => Wants(norm, categories, a, post, now) && (a.id, post.id) !in notified
  }

  /** The alerts that want the post and were not told about it yet, in id order. */
  ghost function NewHits(norm: string -> string, categories: seq<Categories.Row>, alerts: seq<Alert>, post: Post,
                         now: int, notified: set<(Id, Id)>): seq<Alert>
  {
    Filter(alerts, Keep(norm, categories, post, now, notified))
  }

  ghost function Pairs(hits: seq<Alert>, post: Post): set<(Id, Id)> { set a | a in hits :: (a.id, post.id) }

  function Notices(hits: seq<Alert>, post: Post): seq<Notice> {
    seq(|hits|, i requires 0 <= i < |hits| => Notice(hits[i].userId, post.title, post.id, hits[i].id))
  }

  /** The notice for one alert: to its owner, with the post's title as body. */
  ghost predicate IsNoticeFor(n: Notice, alert: Alert, post: Post) {
    n.userId == alert.userId && n.body == post.title && n.postId == post.id && n.alertId == alert.id
  }

  ghost function Asking(norm: string -> string, categories: seq<Categories.Row>, post: Post, now: int): Alert -> bool {
    (a: Alert) => AsksFor(norm, categories, a, post, now)
  }

  /** Exactly the alerts that ask for the post have a row for it now, or had one before; no other row is new. */
  ghost predicate Recorded(asks: Alert -> bool, alerts: seq<Alert>, post: Post, before: set<(Id, Id)>, after: set<(Id, Id)>) {
    && before <= after
    && (forall a :: a in alerts ==> ((a.id, post.id) in after <==> (a.id, post.id) in before || asks(a)))
    && (forall pair :: pair in after && pair !in before ==> exists a :: a in alerts && pair == (a.id, post.id))
  }

  /** Each alert that asks for the post and had no row got one notice, and nobody else got any. */
  ghost predicate Noticed(asks: Alert -> bool, alerts: seq<Alert>, post: Post, before: set<(Id, Id)>, news: seq<Notice>) {
    && (forall a :: a in alerts && asks(a) && (a.id, post.id) !in before ==> exists n :: n in news && IsNoticeFor(n, a, post))
    && (forall n :: n in news ==> exists a :: a in alerts && asks(a) && (a.id, post.id) !in before && IsNoticeFor(n, a, post))
    && (forall i, j :: 0 <= i < j < |news| ==> news[i].alertId != news[j].alertId)
  }

  lemma {:induction false} NewHitsExactly(norm: string -> string, categories: seq<Categories.Row>, alerts: seq<Alert>, post: Post,
                                          now: int, notified: set<(Id, Id)>)
    requires DistinctIds(alerts)
    ensures var hits := NewHits(norm, categories, alerts, post, now, notified); var asks := Asking(norm, categories, post, now);
      DistinctIds(hits) && forall a :: a in hits <==> a in alerts && asks(a) && (a.id, post.id) !in notified
  {
    FilterKeepsDistinct(alerts, Keep(norm, categories, post, now, notified), (a: Alert) => a.id);
    hide Wants;
    hide AsksFor;
    forall a ensures Wants(norm, categories, a, post, now) <==> AsksFor(norm, categories, a, post, now) {
      WantsExactly(norm, categories, a, post, now);
    }
  }

  lemma HitsAreRecorded(asks: Alert -> bool, alerts: seq<Alert>, hits: seq<Alert>, post: Post, before: set<(Id, Id)>)
    requires DistinctIds(alerts) && forall a :: a in hits <==> a in alerts && asks(a) && (a.id, post.id) !in before
    ensures Recorded(asks, alerts, post, before, before + Pairs(hits, post))
  {
    forall a | a in alerts && (a.id, post.id) in Pairs(hits, post) ensures asks(a) {
      var b :| b in hits && (b.id, post.id) == (a.id, post.id);
      assert a == b;
    }
  }

  lemma HitsAreNoticed(asks: Alert -> bool, alerts: seq<Alert>, hits: seq<Alert>, post: Post, before: set<(Id, Id)>)
    requires DistinctIds(hits) && forall a :: a in hits <==> a in alerts && asks(a) && (a.id, post.id) !in before
    ensures Noticed(asks, alerts, post, before, Notices(hits, post))
  {
    var news := Notices(hits, post);
    forall a | a in hits ensures exists n :: n in news && IsNoticeFor(n, a, post) {
      var k :| 0 <= k < |hits| && hits[k] == a;
      assert news[k] in news && IsNoticeFor(news[k], a, post);
    }
    forall n | n in news ensures exists a :: a in hits && IsNoticeFor(n, a, post) {
      var k :| 0 <= k < |news| && news[k] == n;
      assert hits[k] in hits && IsNoticeFor(n, hits[k], post);
    }
  }

  ghost predicate Announced(asks: Alert -> bool, alerts: seq<Alert>, post: Post, before: set<(Id, Id)>, after: set<(Id, Id)>,
                            sent: seq<Notice>, sentAfter: seq<Notice>)
  {
    Recorded(asks, alerts, post, before, after) && sent <= sentAfter && Noticed(asks, alerts, post, before, sentAfter[|sent|..])
  }

  lemma HitsAreAnnounced(norm: string -> string, categories: seq<Categories.Row>, alerts: seq<Alert>, post: Post, now: int,
                         before: set<(Id, Id)>, after: set<(Id, Id)>, sent: seq<Notice>, sentAfter: seq<Notice>)
    requires DistinctIds(alerts)
    requires var hits := NewHits(norm, categories, alerts, post, now, before);
      after == before + Pairs(hits, post) && sentAfter == sent + Notices(hits, post)
    ensures Announced(Asking(norm, categories, post, now), alerts, post, before, after, sent, sentAfter)
  {
    var hits, asks := NewHits(norm, categories, alerts, post, now, before), Asking(norm, categories, post, now);
    NewHitsExactly(norm, categories, alerts, post, now, before);
    HitsAreRecorded(asks, alerts, hits, post, before);
    HitsAreNoticed(asks, alerts, hits, post, before);
    assert sentAfter[|sent|..] == Notices(hits, post);
    hide Recorded;
    hide Noticed;
    hide NewHits;
  }

  class SearchAlertService {
    /** The table of alert and post pairs that were notified, and the notifications sent. */
    var notified: set<(Id, Id)>
    var sent: seq<Notice>

    constructor (notified: set<(Id, Id)>, sent: seq<Notice>)
      ensures this.notified == notified && this.sent == sent
    {
      this.notified, this.sent := notified, sent;
    }

    /** The filters with a single expected value, in the code's order. */
    method FitsPlainFilters(filters: Json, post: Post, now: int) returns (ok: bool)
      ensures ok == PlainFiltersMatch(filters, post, now)
      ensures ok == FiltersHold(filters, post, now)
    {
      FiltersHoldExactly(filters, post, now);
      hide FiltersHold;
      hide Field;
      if Field(filters, "provinceId").JString? && post.provinceId != Some(Field(filters, "provinceId").text) { return false; }
      if Field(filters, "neighborhoodId").JString? && post.neighborhoodId != Some(Field(filters, "neighborhoodId").text) { return false; }
      if Field(filters, "priceType").JString? && post.priceType != Field(filters, "priceType").text { return false; }
      var price := (if post.price.Some? then post.price.value else 0) as real;
      if Field(filters, "minPrice").JNumber? && price < Field(filters, "minPrice").number { return false; }
      if Field(filters, "maxPrice").JNumber? && price > Field(filters, "maxPrice").number { return false; }
      if Field(filters, "onlyPromoted") == JBool(true) {
        if !post.isPromoted || post.boostExpiresAt.None? || post.boostExpiresAt.value <= now { return false; }
      }
      if Field(filters, "onlyImage") == JBool(true) && !post.hasImage { return false; }
      if Field(filters, "onlyVideo") == JBool(true) && !post.hasVideo { return false; }
      return true;
    }

    method FitsCategory(categories: seq<Categories.Row>, filters: Json, post: Post) returns (ok: bool)
      ensures ok == CategoryMatches(categories, filters, post)
      ensures ok == CategoryHolds(categories, filters, post)
    {
      FieldIs(filters, "categoryId");
      hide Sets;
      hide Categories.Reaches;
      hide Field;
      if Field(filters, "categoryId").JString? {
        var descendants := Categories.GetDescendantIds(categories, Field(filters, "categoryId").text);
        return post.categoryId in descendants;
      }
      return true;
    }

    /** The checks of the loop body, in the code's order. */
    method Accepts(norm: string -> string, categories: seq<Categories.Row>, alert: Alert, post: Post, now: int)
      returns (ok: bool)
      requires Candidate(post, alert)
      ensures ok == Wants(norm, categories, alert, post, now)
      ensures ok == AsksFor(norm, categories, alert, post, now)
    {
      hide *;
      WantsExactly(norm, categories, alert, post, now);
      WantsIs(norm, categories, alert, post, now);
      if alert.query.Some? && alert.query.value != "" && !AlertQueryMatches(norm, Haystack(norm, post), alert.query.value) {
        return false;
      }
      var fits := FitsCategory(categories, alert.filters, post);
      if !fits { return false; }
      fits := FitsPlainFilters(alert.filters, post, now);
      if !fits { return false; }
      return AttributesMatch(post.attributes, Field(alert.filters, "attributes"));
    }

    /** The loop over one batch. */
    method NotifyBatch(norm: string -> string, categories: seq<Categories.Row>, batch: seq<Alert>, post: Post, now: int)
      requires DistinctIds(batch) && forall a :: a in batch ==> Candidate(post, a)
      modifies this
      ensures var hits := NewHits(norm, categories, batch, post, now, old(notified));
        notified == old(notified) + Pairs(hits, post) && sent == old(sent) + Notices(hits, post)
    {
      hide Wants;
      hide Candidate;
      hide Filter;
      ghost var keep := Keep(norm, categories, post, now, old(notified));
      FilterNone([], keep);
      NoHitsYet(norm, categories, post, now, notified);
      assert batch[..0] == [];
      var i := 0;
      while i < |batch|
        invariant 0 <= i <= |batch|
        invariant var hits := Filter(batch[..i], keep);
          notified == old(notified) + Pairs(hits, post) && sent == old(sent) + Notices(hits, post)
      {
        var alert := batch[i];
        ghost var hits := Filter(batch[..i], keep);
        assert batch[..i + 1] == batch[..i] + [alert];
        FilterConcat(batch[..i], [alert], keep);
        FilterCons(alert, [], keep);
        assert [alert] + [] == [alert];
        MoreHits(hits, [alert], post);
        forall a | a in hits ensures a.id != alert.id {
          assert a in batch[..i];
        }
        var ok := Accepts(norm, categories, alert, post, now);
        if ok && (alert.id, post.id) !in notified {
          notified := notified + {(alert.id, post.id)};
          sent := sent + [Notice(alert.userId, post.title, post.id, alert.id)];
          assert Filter(batch[..i + 1], keep) == hits + [alert];
        } else {
          assert Filter(batch[..i + 1], keep) == hits;
        }
        i := i + 1;
      }
      assert batch[..i] == batch;
    }

    /**
     * Every alert that wants the post is notified, each once and none twice, wherever the batches
     * of `batchSize` end: exactly the new hits get a row and a notification, in id order.
     */
    method NotifyMatchingAlerts(norm: string -> string, categories: seq<Categories.Row>, alerts: seq<Alert>, post: Post,
                                now: int, batchSize: nat)
      requires DistinctIds(alerts) && batchSize >= 1
      modifies this
      ensures var hits := NewHits(norm, categories, alerts, post, now, old(notified));
        notified == old(notified) + Pairs(hits, post) && sent == old(sent) + Notices(hits, post)
      ensures Announced(Asking(norm, categories, post, now), alerts, post, old(notified), notified, old(sent), sent)
    {
      hide Announced;
      hide Wants;
      hide Candidate;
      hide Filter;
      hide NewHits;
      hide Pairs;
      hide Notices;
      hide Fetch;
      ghost var found := Candidates(alerts, post);
      NoHitsYet(norm, categories, post, now, notified);
      CandidatesDistinct(alerts, post);
      ghost var done := 0;
      var cursor: Option<Id> := None;
      while true
        invariant 0 <= done <= |found|
        invariant var hits := NewHits(norm, categories, found[..done], post, now, old(notified));
          notified == old(notified) + Pairs(hits, post) && sent == old(sent) + Notices(hits, post)
        invariant cursor.None? ==> done == 0
        invariant cursor.Some? ==> done > 0 && cursor.value == found[done - 1].id
        decreases |found| - done
      {
        var batch := Fetch(alerts, post, cursor, batchSize);
        FetchReads(alerts, post, cursor, done, batchSize);
        if |batch| == 0 { break; }
        ghost var told := notified;
        BatchIsFromTable(alerts, post, done, |batch|);
        NotifyBatch(norm, categories, batch, post, now);
        NextSegment(norm, categories, found, done, |batch|, post, now, old(notified), told);
        done := done + |batch|;
        if |batch| < batchSize { break; }
        cursor := Some(batch[|batch| - 1].id);
      }
      assert found[..done] == found;
      HitsAreCandidates(norm, categories, alerts, post, now, old(notified));
      HitsAreAnnounced(norm, categories, alerts, post, now, old(notified), notified, old(sent), sent);
    }

    method ProcessAlertMatches(norm: string -> string, categories: seq<Categories.Row>, alerts: seq<Alert>,
                               post: Option<Post>, now: int)
      requires DistinctIds(alerts)
      modifies this
      ensures var hits := if post.Some? && post.value.approved && post.value.isPost
                then NewHits(norm, categories, alerts, post.value, now, old(notified)) else [];
        post.Some? ==> notified == old(notified) + Pairs(hits, post.value) && sent == old(sent) + Notices(hits, post.value)
      ensures post.None? ==> notified == old(notified) && sent == old(sent)
      ensures if post.Some? && post.value.approved && post.value.isPost
        then Announced(Asking(norm, categories, post.value, now), alerts, post.value, old(notified), notified, old(sent), sent)
        else notified == old(notified) && sent == old(sent)
    {
      hide Announced;
      hide NewHits;
      if post.None? || !post.value.approved || !post.value.isPost {
        return;
      }
      NotifyMatchingAlerts(norm, categories, alerts, post.value, now, 100);
    }
  }

  lemma NoHitsYet(norm: string -> string, categories: seq<Categories.Row>, post: Post, now: int, notified: set<(Id, Id)>)
    ensures NewHits(norm, categories, [], post, now, notified) == []
    ensures Pairs([], post) == {} && Notices([], post) == []
  {
  }

  lemma MoreHits(a: seq<Alert>, b: seq<Alert>, post: Post)
    ensures Pairs(a + b, post) == Pairs(a, post) + Pairs(b, post)
    ensures Notices(a + b, post) == Notices(a, post) + Notices(b, post)
  {
  }

  lemma BatchIsFromTable(alerts: seq<Alert>, post: Post, done: nat, n: nat)
    requires done + n <= |Candidates(alerts, post)|
    ensures forall a :: a in Candidates(alerts, post)[done..done + n] ==> Candidate(post, a)
  {
    forall a | a in Candidates(alerts, post)[done..done + n] ensures Candidate(post, a) {
      assert a in Candidates(alerts, post);
    }
  }

  lemma CandidatesDistinct(alerts: seq<Alert>, post: Post)
    requires DistinctIds(alerts)
    ensures DistinctIds(Candidates(alerts, post))
  {
    FilterKeepsDistinct(alerts, (a: Alert) => Candidate(post, a), (a: Alert) => a.id);
  }

  lemma PositionIsUnique(alerts: seq<Alert>, at: nat)
    requires DistinctIds(alerts) && at < |alerts|
    ensures PositionOf(alerts, alerts[at].id) == at
  {
  }

  lemma FetchReads(alerts: seq<Alert>, post: Post, cursor: Option<Id>, done: nat, take: nat)
    requires DistinctIds(Candidates(alerts, post)) && done <= |Candidates(alerts, post)|
    requires cursor.None? ==> done == 0
    requires cursor.Some? ==> done > 0 && cursor.value == Candidates(alerts, post)[done - 1].id
    ensures var batch := Fetch(alerts, post, cursor, take);
      && done + |batch| <= |Candidates(alerts, post)| && batch == Candidates(alerts, post)[done..done + |batch|]
      && (|batch| < take ==> done + |batch| == |Candidates(alerts, post)|)
      && |batch| <= take
  {
    hide Filter;
    hide Candidate;
    if cursor.Some? {
      PositionIsUnique(Candidates(alerts, post), done - 1);
    }
  }

  /** Rows added for earlier alerts do not hide a later one. */
  lemma {:induction false} OtherRowsDoNotMatter(norm: string -> string, categories: seq<Categories.Row>, alerts: seq<Alert>,
                                                post: Post, now: int, a: set<(Id, Id)>, b: set<(Id, Id)>)
    requires forall x :: x in alerts ==> ((x.id, post.id) in a <==> (x.id, post.id) in b)
    ensures NewHits(norm, categories, alerts, post, now, a) == NewHits(norm, categories, alerts, post, now, b)
  {
    if alerts != [] {
      OtherRowsDoNotMatter(norm, categories, alerts[1..], post, now, a, b);
    }
  }

  lemma SegmentHits(norm: string -> string, categories: seq<Categories.Row>, found: seq<Alert>, done: nat, n: nat,
                    post: Post, now: int, before: set<(Id, Id)>, told: set<(Id, Id)>)
    requires DistinctIds(found) && done + n <= |found|
    requires told == before + Pairs(NewHits(norm, categories, found[..done], post, now, before), post)
    ensures NewHits(norm, categories, found[..done + n], post, now, before)
      == NewHits(norm, categories, found[..done], post, now, before) + NewHits(norm, categories, found[done..done + n], post, now, told)
  {
    hide Wants;
    hide Filter;
    var batch := found[done..done + n];
    assert found[..done + n] == found[..done] + batch;
    FilterConcat(found[..done], batch, Keep(norm, categories, post, now, before));
    forall x | x in batch ensures (x.id, post.id) in told <==> (x.id, post.id) in before {
      forall y | y in found[..done] ensures y.id != x.id {
      }
    }
    hide Keep;
    OtherRowsDoNotMatter(norm, categories, batch, post, now, before, told);
  }

  lemma NextSegment(norm: string -> string, categories: seq<Categories.Row>, found: seq<Alert>, done: nat, n: nat,
                    post: Post, now: int, before: set<(Id, Id)>, told: set<(Id, Id)>)
    requires DistinctIds(found) && done + n <= |found|
    requires told == before + Pairs(NewHits(norm, categories, found[..done], post, now, before), post)
    ensures DistinctIds(found[done..done + n])
    ensures var hits := NewHits(norm, categories, found[..done], post, now, before);
      var more := NewHits(norm, categories, found[done..done + n], post, now, told);
      var all := NewHits(norm, categories, found[..done + n], post, now, before);
      all == hits + more && Pairs(all, post) == Pairs(hits, post) + Pairs(more, post)
      && Notices(all, post) == Notices(hits, post) + Notices(more, post)
  {
    SegmentHits(norm, categories, found, done, n, post, now, before, told);
    MoreHits(NewHits(norm, categories, found[..done], post, now, before),
             NewHits(norm, categories, found[done..done + n], post, now, told), post);
    hide NewHits;
    hide Pairs;
    hide Notices;
  }

  /** The query's own filter loses no hit. */
  lemma {:induction false} HitsAreCandidates(norm: string -> string, categories: seq<Categories.Row>, alerts: seq<Alert>,
                                             post: Post, now: int, notified: set<(Id, Id)>)
    ensures NewHits(norm, categories, Candidates(alerts, post), post, now, notified)
         == NewHits(norm, categories, alerts, post, now, notified)
  {
    if alerts != [] {
      HitsAreCandidates(norm, categories, alerts[1..], post, now, notified);
      var rest := Candidates(alerts[1..], post);
      if Candidate(post, alerts[0]) {
        assert Candidates(alerts, post) == [alerts[0]] + rest;
        FilterCons(alerts[0], rest, Keep(norm, categories, post, now, notified));
      } else {
        assert !Keep(norm, categories, post, now, notified)(alerts[0]);
        assert Candidates(alerts, post) == rest;
      }
    }
  }

  /** After one pass a second one over the same table finds nothing to send. */
  lemma SecondPassSendsNothing(norm: string -> string, categories: seq<Categories.Row>, alerts: seq<Alert>, post: Post,
                               now: int, notified: set<(Id, Id)>)
    ensures var after := notified + Pairs(NewHits(norm, categories, alerts, post, now, notified), post);
      && NewHits(norm, categories, alerts, post, now, after) == []
      && (forall a :: a in alerts ==> (Wants(norm, categories, a, post, now) ==> (a.id, post.id) in after))
  {
    var hits := NewHits(norm, categories, alerts, post, now, notified);
    var after := notified + Pairs(hits, post);
    forall a | a in alerts && Wants(norm, categories, a, post, now) ensures (a.id, post.id) in after {
      if (a.id, post.id) !in notified {
        assert Keep(norm, categories, post, now, notified)(a);
        assert a in hits;
      }
    }
    FilterNone(alerts, Keep(norm, categories, post, now, after));
  }
}

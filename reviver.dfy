/**
 * The reviver that the query text is parsed with (app/json-paser-reviver.js)
 * and the post-order walk through which JSON.parse calls it (the
 * InternalizeJSONProperty step of JSON.parse, section 25.5.1.1 of ECMA-262).
 */
module Reviver {
  import opened Wrappers
  import opened Strings
  import opened Json

  /** The prefix a string must start with before the key is even looked at. */
  const DatePrefix: string := "ISODate("

  /**
   * The keys under which a string may become a date. The set holds "lte",
   * not "$lte", exactly as the source writes it.
   */
  const DateKeys: set<string> := {"$gte", "$gt", "lte", "$lt", "$eq", "$ne"}

  /** The literal parts of the regular expression ISODate\('([^']+)'\). */
  const Opening: string := "ISODate('"
  const Closing: string := "')"

  /** The regular expression matches at position `i` of `s` with first capture `cap`. */
  ghost predicate MatchesAt(s: string, i: nat, cap: string)
  {
    && |cap| >= 1
    && (forall k :: 0 <= k < |cap| ==> cap[k] != '\'')
    && i <= |s|
    && StartsWith(s[i..], Opening + cap + Closing)
  }

  /** `cap` is the capture of the leftmost match, which is the one String.prototype.match reports. */
  ghost predicate LeftmostMatch(s: string, i: nat, cap: string)
  {
    && MatchesAt(s, i, cap)
    && forall j: nat, c :: j < i ==> !MatchesAt(s, j, c)
  }

  /** The capture of a match that starts exactly at `i`, if there is one. */
  function CaptureAt(s: string, i: nat): (r: Option<string>)
    requires i <= |s|
    ensures r.Some? ==> MatchesAt(s, i, r.value)
  {
    if StartsWith(s[i..], Opening) then
      var q := IndexFrom(s, '\'', i + |Opening|);
      if q > i + |Opening| && q + 1 < |s| && s[q + 1] == ')' then
        var cap := s[i + |Opening|..q];
        assert s[i..][..|Opening + cap + Closing|] == Opening + cap + Closing;
        Some(cap)
      else None
    else None
  }

  /** No match starts at `i` when CaptureAt finds none: the quote that ends the capture is forced. */
  lemma CaptureAtComplete(s: string, i: nat, cap: string)
    requires i <= |s|
    requires MatchesAt(s, i, cap)
    ensures CaptureAt(s, i) == Some(cap)
  {
    var n := |Opening|;
    var full := Opening + cap + Closing;
    assert s[i..][..|full|] == full;
    assert s[i..][..n] == Opening by {
      assert full[..n] == Opening;
    }
    var q := i + n + |cap|;
    forall t | i + n <= t < q
      ensures s[t] != '\''
    {
      assert s[t] == full[t - i] == cap[t - i - n];
    }
    assert s[q] == full[n + |cap|] == '\'';
    assert s[q + 1] == full[n + |cap| + 1] == ')';
    assert IndexFrom(s, '\'', i + n) == q;
    assert s[i + n..q] == cap by {
      forall t | 0 <= t < |cap|
        ensures s[i + n..q][t] == cap[t]
      {
        assert s[i + n + t] == full[n + t];
      }
    }
  }

  /** Leftmost search for a match, starting at position `from`. */
  function CaptureFrom(s: string, from: nat): Option<string>
    requires from <= |s|
    decreases |s| - from
  {
    match CaptureAt(s, from)
    case Some(cap) => Some(cap)
    case None => if from == |s| then None else CaptureFrom(s, from + 1)
  }

  /** The first capture of ISODate\('([^']+)'\) in `s`; the match is not anchored. */
  function Capture(s: string): Option<string>
  {
    CaptureFrom(s, 0)
  }

  lemma {:induction false} CaptureFromIsLeftmost(s: string, from: nat)
    requires from <= |s|
    requires forall j: nat, c :: j < from ==> !MatchesAt(s, j, c)
    ensures CaptureFrom(s, from).Some? ==> exists i: nat :: LeftmostMatch(s, i, CaptureFrom(s, from).value)
    ensures CaptureFrom(s, from).None? ==> forall j: nat, c :: !MatchesAt(s, j, c)
    decreases |s| - from
  {
    match CaptureAt(s, from)
    case Some(cap) =>
      assert LeftmostMatch(s, from, cap);
    case None =>
      forall c | MatchesAt(s, from, c)
        ensures false
      {
        CaptureAtComplete(s, from, c);
      }
      if from < |s| {
        CaptureFromIsLeftmost(s, from + 1);
      } else {
        forall j: nat, c | MatchesAt(s, j, c)
          ensures false
        {
        }
      }
  }

  /** Capture agrees with the regular expression's leftmost-match semantics, in both directions. */
  lemma CaptureIsLeftmostMatch(s: string)
    ensures Capture(s).Some? ==> exists i: nat :: LeftmostMatch(s, i, Capture(s).value)
    ensures Capture(s).None? <==> forall j: nat, c :: !MatchesAt(s, j, c)
  {
    CaptureFromIsLeftmost(s, 0);
  }

  /** The reviver: called by JSON.parse with each property's key and (already revived) value. */
  function Revive(key: string, value: Value): (r: Value)
    ensures !value.JString? ==> r == value
    ensures key !in DateKeys ==> r == value
    ensures value.JString? && !StartsWith(value.s, DatePrefix) ==> r == value
    ensures r != value ==> r.JDate? && exists i: nat :: LeftmostMatch(value.s, i, r.timestamp)
    ensures r == value <==>
              !(value.JString? && StartsWith(value.s, DatePrefix) && key in DateKeys
                && exists i: nat, c :: MatchesAt(value.s, i, c))
  {
    if value.JString? && StartsWith(value.s, DatePrefix) && key in DateKeys then
      CaptureIsLeftmostMatch(value.s);
      match Capture(value.s)
      case Some(ts) => JDate(ts)
      case None => value
    else value
  }

  /** Applying the reviver twice gives what applying it once gives, under any key. */
  lemma ReviveIdempotent(key: string, key': string, value: Value)
    requires Revive(key, value) != value
    ensures Revive(key', Revive(key, value)) == Revive(key, value)
  {
  }

  /** The source's key set: a date literal under "$lte" stays a string, one under "lte" converts. */
  lemma DollarLteNotConverted()
    ensures Revive("$lte", JString("ISODate('2024-01-01')")) == JString("ISODate('2024-01-01')")
  {
    assert "$lte" !in DateKeys;
  }

  lemma BareLteConverted()
    ensures Revive("lte", JString("ISODate('2024-01-01')")) == JDate("2024-01-01")
  {
    assert "ISODate('2024-01-01')" == Opening + "2024-01-01" + Closing + "";
    LiteralConverted("lte", "2024-01-01", "");
  }

  /**
   * Under a gated key, a string made of ISODate(' + a quote-free capture + ')
   * becomes a Date of that capture whatever text follows: the match is not
   * anchored at the end.
   */
  lemma LiteralConverted(key: string, cap: string, rest: string)
    requires key in DateKeys
    requires |cap| >= 1 && forall k :: 0 <= k < |cap| ==> cap[k] != '\''
    ensures Revive(key, JString(Opening + cap + Closing + rest)) == JDate(cap)
  {
    var s := Opening + cap + Closing + rest;
    assert s[..|Opening + cap + Closing|] == Opening + cap + Closing;
    assert MatchesAt(s, 0, cap);
    CaptureAtComplete(s, 0, cap);
    assert s[..|DatePrefix|] == DatePrefix;
  }

  lemma TrailingTextIgnored()
    ensures Revive("$gt", JString("ISODate('2024-05-01T00:00:00Z') + 1")) == JDate("2024-05-01T00:00:00Z")
  {
    assert "ISODate('2024-05-01T00:00:00Z') + 1" == Opening + "2024-05-01T00:00:00Z" + Closing + " + 1";
    LiteralConverted("$gt", "2024-05-01T00:00:00Z", " + 1");
  }

  /** A string without a single quote cannot match, so it is returned unchanged under every key. */
  lemma QuoteFreeKept(key: string, s: string)
    requires forall k :: 0 <= k < |s| ==> s[k] != '\''
    ensures Revive(key, JString(s)) == JString(s)
  {
    forall j: nat, c
      ensures !MatchesAt(s, j, c)
    {
      if MatchesAt(s, j, c) {
        MatchHasQuote(s, j, c);
      }
    }
  }

  /** Every match has a single quote right after "ISODate(". */
  lemma MatchHasQuote(s: string, j: nat, c: string)
    requires MatchesAt(s, j, c)
    ensures j + 8 < |s| && s[j + 8] == '\''
  {
    var full := Opening + c + Closing;
    assert s[j..][..|full|] == full;
    assert s[j + 8] == full[8];
  }

  /** A double-quoted date literal passes the prefix and key gates but not the regular expression. */
  lemma DoubleQuotedLiteralKept()
    ensures Revive("$gt", JString("ISODate(\"2024\")")) == JString("ISODate(\"2024\")")
  {
    QuoteFreeKept("$gt", "ISODate(\"2024\")");
  }

  /** The property key JSON.parse passes for array element `i`: ToString(i). */
  function IndexKey(i: nat): string
  {
    NatToString(i)
  }

  lemma IndexKeyNotDateKey(i: nat)
    ensures IndexKey(i) !in DateKeys
  {
    var k := IndexKey(i);
    assert IsDigit(k[0]);
  }

  /**
   * InternalizeJSONProperty: revive the children first (array elements under
   * their index keys, object members under their names), then this value
   * under its own key.
   */
  function Internalize(key: string, v: Value): Value
    decreases v, 1
  {
    Revive(key, InternalizeChildren(v))
  }

  /** `v` with every child internalized and `v` itself not yet revived. */
  function InternalizeChildren(v: Value): (r: Value)
    decreases v, 0
  {
    match v
    case JArray(items) =>
      JArray(seq(|items|, i requires 0 <= i < |items| => Internalize(IndexKey(i), items[i])))
    case JObject(ms) =>
      JObject(seq(|ms|, i requires 0 <= i < |ms| => Member(ms[i].name, Internalize(ms[i].name, ms[i].value))))
    case _ => v
  }

  /** JSON.parse(text, reviver) on the tree that `text` parses to: the root is revived under "". */
  function ParseWithReviver(v: Value): Value
  {
    Internalize("", v)
  }

  /** No object member anywhere in `v` is named by a key of DateKeys. */
  predicate NoDateKeyMember(v: Value)
  {
    match v
    case JArray(items) => forall i :: 0 <= i < |items| ==> NoDateKeyMember(items[i])
    case JObject(ms) => forall i :: 0 <= i < |ms| ==> ms[i].name !in DateKeys && NoDateKeyMember(ms[i].value)
    case _ => true
  }

  /** Every Date in `v` sits directly under a member whose name is in DateKeys; `key` is the key of `v` itself. */
  predicate DatesGated(key: string, v: Value)
    decreases v
  {
    match v
    case JDate(_) => key in DateKeys
    case JArray(items) => forall i :: 0 <= i < |items| ==> DatesGated(IndexKey(i), items[i])
    case JObject(ms) => forall i :: 0 <= i < |ms| ==> DatesGated(ms[i].name, ms[i].value)
    case _ => true
  }

  /** Walking an already revived tree again changes nothing. */
  lemma {:induction false} InternalizeIdempotent(key: string, v: Value)
    ensures Internalize(key, Internalize(key, v)) == Internalize(key, v)
    decreases v, 1
  {
    var c := InternalizeChildren(v);
    if Revive(key, c) == c {
      ChildrenIdempotent(v);
    }
  }

  lemma {:induction false} ChildrenIdempotent(v: Value)
    ensures InternalizeChildren(InternalizeChildren(v)) == InternalizeChildren(v)
    decreases v, 0
  {
    match v
    case JArray(items) =>
      var c := InternalizeChildren(v).items;
      var cc := InternalizeChildren(JArray(c)).items;
      forall i | 0 <= i < |items|
        ensures cc[i] == c[i]
      {
        InternalizeIdempotent(IndexKey(i), items[i]);
      }
    case JObject(ms) =>
      var c := InternalizeChildren(v).members;
      var cc := InternalizeChildren(JObject(c)).members;
      forall i | 0 <= i < |ms|
        ensures cc[i] == c[i]
      {
        InternalizeIdempotent(ms[i].name, ms[i].value);
      }
    case _ =>
  }

  /** A tree with no member named in DateKeys comes back exactly as it went in. */
  lemma {:induction false} NoDateKeyUnchanged(key: string, v: Value)
    requires key !in DateKeys
    requires NoDateKeyMember(v)
    ensures Internalize(key, v) == v
    decreases v
  {
    match v
    case JArray(items) =>
      var c := InternalizeChildren(v).items;
      forall i | 0 <= i < |items|
        ensures c[i] == items[i]
      {
        IndexKeyNotDateKey(i);
        NoDateKeyUnchanged(IndexKey(i), items[i]);
      }
    case JObject(ms) =>
      var c := InternalizeChildren(v).members;
      forall i | 0 <= i < |ms|
        ensures c[i] == ms[i]
      {
        NoDateKeyUnchanged(ms[i].name, ms[i].value);
      }
    case _ =>
  }

  /** In a revived parse result, dates appear only directly under a gated member name. */
  lemma {:induction false} DatesOnlyUnderDateKeys(key: string, v: Value)
    requires IsParsed(v)
    ensures DatesGated(key, Internalize(key, v))
    decreases v
  {
    match v
    case JArray(items) =>
      var c := InternalizeChildren(v).items;
      forall i | 0 <= i < |items|
        ensures DatesGated(IndexKey(i), c[i])
      {
        DatesOnlyUnderDateKeys(IndexKey(i), items[i]);
      }
    case JObject(ms) =>
      var c := InternalizeChildren(v).members;
      forall i | 0 <= i < |ms|
        ensures DatesGated(ms[i].name, c[i].value)
      {
        DatesOnlyUnderDateKeys(ms[i].name, ms[i].value);
      }
    case JString(_) =>
      assert InternalizeChildren(v) == v;
    case JNull =>
      assert Internalize(key, v) == v;
    case JBool(_) =>
      assert Internalize(key, v) == v;
    case JNumber(_) =>
      assert Internalize(key, v) == v;
    case JDate(_) =>
      assert false;
  }

  /** The root is revived under "" and so is never turned into a Date. */
  lemma RootNeverConverted(v: Value)
    requires IsParsed(v)
    ensures !ParseWithReviver(v).JDate?
  {
    assert "" !in DateKeys;
    assert ParseWithReviver(v) == InternalizeChildren(v);
  }

  /** Array elements are revived under "0", "1", ...: a string element is never converted. */
  lemma ArrayElementNeverConverted(key: string, items: seq<Value>, i: nat)
    requires i < |items| && items[i].JString?
    ensures Internalize(key, JArray(items)).JArray?
    ensures |Internalize(key, JArray(items)).items| == |items|
    ensures Internalize(key, JArray(items)).items[i] == items[i]
  {
    var c := InternalizeChildren(JArray(items));
    assert Internalize(key, JArray(items)) == c;
    IndexKeyNotDateKey(i);
    assert c.items[i] == Internalize(IndexKey(i), items[i]);
    assert InternalizeChildren(items[i]) == items[i];
  }

  /** {name: {op: "ISODate('ts')"}} with a plain field name and a gated operator gets a Date at name.op. */
  lemma GatedOperatorConverted(name: string, op: string, ts: string)
    requires name !in DateKeys && op in DateKeys
    requires |ts| >= 1 && forall k :: 0 <= k < |ts| ==> ts[k] != '\''
    ensures ParseWithReviver(JObject([Member(name, JObject([Member(op, JString(Opening + ts + Closing))]))]))
         == JObject([Member(name, JObject([Member(op, JDate(ts))]))])
  {
    var lit := JString(Opening + ts + Closing);
    assert Opening + ts + Closing == Opening + ts + Closing + "";
    LiteralConverted(op, ts, "");
    assert InternalizeChildren(lit) == lit;
    assert Internalize(op, lit) == JDate(ts);
    var inner := JObject([Member(op, lit)]);
    var inner' := JObject([Member(op, JDate(ts))]);
    assert InternalizeChildren(inner) == inner';
    assert Internalize(name, inner) == inner';
    var outer := JObject([Member(name, inner)]);
    assert InternalizeChildren(outer) == JObject([Member(name, inner')]);
    assert "" !in DateKeys;
  }

  /** The filter {"createdAt":{"$gte":"ISODate('2024-01-01T00:00:00.000Z')"}} gets a Date at createdAt.$gte. */
  lemma CreatedAtExample()
    ensures ParseWithReviver(JObject([Member("createdAt", JObject([Member("$gte",
              JString("ISODate('2024-01-01T00:00:00.000Z')"))]))]))
         == JObject([Member("createdAt", JObject([Member("$gte", JDate("2024-01-01T00:00:00.000Z"))]))])
  {
    assert "ISODate('2024-01-01T00:00:00.000Z')" == Opening + "2024-01-01T00:00:00.000Z" + Closing;
    GatedOperatorConverted("createdAt", "$gte", "2024-01-01T00:00:00.000Z");
  }

  /** ObjectId literals are not handled by this reviver: {"_id":"ObjectId('...')"} parses unchanged. */
  lemma ObjectIdLiteralKept()
    ensures ParseWithReviver(JObject([Member("_id", JString("ObjectId('507f1f77bcf86cd799439011')"))]))
         == JObject([Member("_id", JString("ObjectId('507f1f77bcf86cd799439011')"))])
  {
    assert "_id" !in DateKeys;
    assert "" !in DateKeys;
  }
}

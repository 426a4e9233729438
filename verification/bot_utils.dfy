/**
 * The validation and conversion helpers of BotUtils. A Java array or
 * collection argument is `Option<seq<...>>`: `None` is a null reference,
 * otherwise its elements in iteration order, each element itself nullable
 * where Java allows it.
 */
module BotUtils {
  import opened Wrappers
  import opened JavaString

  // ---------------------------------------------------------------------
  // Null checks

  /** Some element of the array is a null reference. */
  predicate ContainsNull<T>(elements: seq<Option<T>>) {
    exists i :: 0 <= i < |elements| && elements[i].None?
  }

  /**
   * The private loop over the array: stops at the first null element.
   * Only the elements themselves are inspected, never what they contain.
   */
  method HasNullReferencesInArray<T>(params: seq<Option<T>>) returns (found: bool)
    ensures found <==> ContainsNull(params)
  {
    for i := 0 to |params|
      invariant forall j :: 0 <= j < i ==> params[j].Some?
    {
      if params[i].None? {
        return true;
      }
    }
    return false;
  }

  /**
   * `HasNullReferences(Object...)`: true for a null array, otherwise true
   * exactly when some element is null. An empty array gives false. (The
   * method's doc comment states the opposite polarity; this is what the
   * code returns.)
   */
  method HasNullReferences<T>(params: Option<seq<Option<T>>>) returns (r: bool)
    ensures params.None? ==> r
    ensures params.Some? ==> (r <==> ContainsNull(params.value))
    ensures params == Some([]) ==> !r
  {
    if params.None? {
      return true;
    }
    r := HasNullReferencesInArray(params.value);
  }

  /** A Java object that may itself be an array of (nullable) objects. */
  datatype JavaObject = Scalar(id: int) | ObjectArray(elements: seq<Option<JavaObject>>)

  /**
   * The check is shallow: an array whose one element is itself an array of
   * objects is reported free of nulls, whatever the inner array holds. In
   * Java this needs the inner array to be one of several arguments, or cast
   * to `Object`: a lone `Object[]` argument is passed as the array itself.
   */
  method NestedNullIsNotSeen(inner: seq<Option<JavaObject>>) returns (r: bool)
    ensures !r
  {
    r := HasNullReferences(Some([Some(ObjectArray(inner))]));
  }

  // ---------------------------------------------------------------------
  // Empty-string checks

  /** A string argument is null, or consists only of chars that `trim()` removes. */
  predicate IsNullOrBlank(s: Option<string>) {
    s.None? || AllTrimmable(s.value)
  }

  /**
   * The private loop over the strings: stops at the first element that is
   * null or whose `trim()` equals "".
   */
  method HasEmptyStringsInArray(strings: seq<Option<string>>) returns (found: bool)
    ensures found <==> exists i :: 0 <= i < |strings| && IsNullOrBlank(strings[i])
  {
    for i := 0 to |strings|
      invariant forall j :: 0 <= j < i ==> !IsNullOrBlank(strings[j])
    {
      var str := strings[i];
      if str.None? || Trim(str.value) == "" {
        return true;
      }
    }
    return false;
  }

  /**
   * `HasEmptyStrings(String...)`: true for a null array, otherwise true
   * exactly when some element is null or blank after trimming. An empty
   * array gives false.
   */
  method HasEmptyStrings(strings: Option<seq<Option<string>>>) returns (r: bool)
    ensures strings.None? ==> r
    ensures strings.Some? ==> (r <==> exists i :: 0 <= i < |strings.value| && IsNullOrBlank(strings.value[i]))
    ensures strings == Some([]) ==> !r
  {
    if strings.None? {
      return true;
    }
    r := HasEmptyStringsInArray(strings.value);
  }

  // ---------------------------------------------------------------------
  // Map creation

  /** The keys of the elements of `xs`. */
  function KeysOf<T>(xs: seq<T>, mapKey: T -> string): set<string> {
    set i | 0 <= i < |xs| :: mapKey(xs[i])
  }

  /** `i` is the last position in `xs` whose element has key `k`. */
  predicate IsLastWithKey<T>(xs: seq<T>, mapKey: T -> string, k: string, i: int) {
    && 0 <= i < |xs|
    && mapKey(xs[i]) == k
    && forall j :: i < j < |xs| ==> mapKey(xs[j]) != k
  }

  /** Appending an element adds its key to the key set. */
  lemma KeysOfSnoc<T>(xs: seq<T>, mapKey: T -> string)
    requires xs != []
    ensures KeysOf(xs, mapKey) == KeysOf(xs[..|xs| - 1], mapKey) + {mapKey(xs[|xs| - 1])}
  {
    var n := |xs| - 1;
    assert forall i :: 0 <= i < n ==> xs[..n][i] == xs[i];
  }

  /**
   * Appending an element with a different key keeps the last position of
   * every other key.
   */
  lemma LastWithKeySnoc<T>(xs: seq<T>, mapKey: T -> string, k: string, i: int)
    requires xs != [] && mapKey(xs[|xs| - 1]) != k
    requires IsLastWithKey(xs[..|xs| - 1], mapKey, k, i)
    ensures IsLastWithKey(xs, mapKey, k, i)
  {
  }

  /**
   * The map after `put(mapKey(x), x)` for each `x` of `xs` in order, starting
   * from an empty map: a later element overwrites an earlier one with the
   * same key.
   */
  function PutEach<T>(xs: seq<T>, mapKey: T -> string): (m: map<string, T>)
    ensures m.Keys == KeysOf(xs, mapKey)
    ensures |m| <= |xs|
    ensures forall k :: k in m ==> exists i :: IsLastWithKey(xs, mapKey, k, i) && m[k] == xs[i]
    decreases |xs|
  {
    if xs == [] then map[]
    else
      var n := |xs| - 1;
      var prefix := PutEach(xs[..n], mapKey);
      var m := prefix[mapKey(xs[n]) := xs[n]];
      KeysOfSnoc(xs, mapKey);
      assert IsLastWithKey(xs, mapKey, mapKey(xs[n]), n);
      assert forall k :: k in m ==> exists i :: IsLastWithKey(xs, mapKey, k, i) && m[k] == xs[i] by {
        forall k | k in m && k != mapKey(xs[n])
          ensures exists i :: IsLastWithKey(xs, mapKey, k, i) && m[k] == xs[i]
        {
          var i :| IsLastWithKey(xs[..n], mapKey, k, i) && prefix[k] == xs[..n][i];
          LastWithKeySnoc(xs, mapKey, k, i);
        }
      }
      m
  }

  /**
   * `CreateMap(Collection<T>)`: a map from each element's `mapKey()` to the
   * element. A null or empty collection gives an empty map. The key set is
   * the set of keys of the elements; every value is an element stored under
   * its own key, namely the last element in iteration order with that key.
   */
  function CreateMap<T>(collection: Option<seq<T>>, mapKey: T -> string): (m: map<string, T>)
    ensures collection.None? ==> m == map[]
    ensures collection.Some? ==> m.Keys == KeysOf(collection.value, mapKey)
    ensures collection.Some? ==> |m| <= |collection.value|
    ensures forall k :: k in m ==> mapKey(m[k]) == k
    ensures collection.Some? ==>
      forall k :: k in m ==> exists i :: IsLastWithKey(collection.value, mapKey, k, i) && m[k] == collection.value[i]
  {
    match collection
    case None => map[]
    case Some(xs) => if |xs| == 0 then map[] else PutEach(xs, mapKey)
  }

  /** No two elements of `xs` share a key. */
  predicate DistinctKeys<T>(xs: seq<T>, mapKey: T -> string) {
    forall i, j :: 0 <= i < j < |xs| ==> mapKey(xs[i]) != mapKey(xs[j])
  }

  /** With distinct keys, the key set is as large as the sequence. */
  lemma {:induction false} KeysOfDistinctSize<T>(xs: seq<T>, mapKey: T -> string)
    requires DistinctKeys(xs, mapKey)
    ensures |KeysOf(xs, mapKey)| == |xs|
    decreases |xs|
  {
    if xs != [] {
      var n := |xs| - 1;
      KeysOfDistinctSize(xs[..n], mapKey);
      KeysOfSnoc(xs, mapKey);
      assert mapKey(xs[n]) !in KeysOf(xs[..n], mapKey);
    }
  }

  /**
   * With distinct keys nothing is overwritten: every element is found under
   * its own key and the map has one entry per element.
   */
  lemma CreateMapDistinctKeys<T>(xs: seq<T>, mapKey: T -> string)
    requires DistinctKeys(xs, mapKey)
    ensures forall i :: 0 <= i < |xs| ==>
      mapKey(xs[i]) in CreateMap(Some(xs), mapKey) && CreateMap(Some(xs), mapKey)[mapKey(xs[i])] == xs[i]
    ensures |CreateMap(Some(xs), mapKey)| == |xs|
  {
    var m := CreateMap(Some(xs), mapKey);
    forall i | 0 <= i < |xs|
      ensures mapKey(xs[i]) in m && m[mapKey(xs[i])] == xs[i]
    {
      assert mapKey(xs[i]) in KeysOf(xs, mapKey);
      var j :| IsLastWithKey(xs, mapKey, mapKey(xs[i]), j) && m[mapKey(xs[i])] == xs[j];
      assert j == i;
    }
    KeysOfDistinctSize(xs, mapKey);
  }

  /**
   * Of the elements sharing a key, the last one visited is stored.
   */
  lemma CreateMapLaterWins<T>(xs: seq<T>, mapKey: T -> string, i: nat, j: nat)
    requires i < j < |xs|
    requires mapKey(xs[i]) == mapKey(xs[j])
    requires forall l :: j < l < |xs| ==> mapKey(xs[l]) != mapKey(xs[j])
    ensures CreateMap(Some(xs), mapKey)[mapKey(xs[i])] == xs[j]
  {
    var m := CreateMap(Some(xs), mapKey);
    var k := mapKey(xs[j]);
    assert k in KeysOf(xs, mapKey);
    var l :| IsLastWithKey(xs, mapKey, k, l) && m[k] == xs[l];
    assert l == j;
  }

  // ---------------------------------------------------------------------
  // Boolean conversion

  /** The one literal the conversion accepts, in any letter case. */
  const TrueLiteral: string := "true"

  /**
   * `convertStringToBoolean(String)`: false for null, otherwise true exactly
   * when the string equals "true" ignoring case. No trimming is done.
   */
  function ConvertStringToBoolean(booleanStr: Option<string>): (r: bool)
    ensures r <==> booleanStr.Some? && ToLower(booleanStr.value) == TrueLiteral
  {
    match booleanStr
    case None => false
    case Some(s) =>
      EqualsIgnoreCaseIffLower(s, TrueLiteral);
      assert ToLower(TrueLiteral) == TrueLiteral;
      EqualsIgnoreCase(s, TrueLiteral)
  }

  /**
   * The accepted strings are exactly the sixteen letter-case variants of
   * "true".
   */
  lemma ConvertStringToBooleanAccepts(s: string)
    ensures ConvertStringToBoolean(Some(s)) <==>
      |s| == 4 && s[0] in "tT" && s[1] in "rR" && s[2] in "uU" && s[3] in "eE"
  {
    if |s| == 4 {
      assert ToLower(s) == [ToLowerChar(s[0]), ToLowerChar(s[1]), ToLowerChar(s[2]), ToLowerChar(s[3])];
    }
  }

  /** Concrete inputs: case is ignored, but white space and synonyms are not accepted. */
  lemma ConvertStringToBooleanExamples()
    ensures ConvertStringToBoolean(Some("TRUE")) && ConvertStringToBoolean(Some("True"))
    ensures !ConvertStringToBoolean(None)
    ensures !ConvertStringToBoolean(Some(" true")) && !ConvertStringToBoolean(Some("yes"))
    ensures !ConvertStringToBoolean(Some("1")) && !ConvertStringToBoolean(Some("false"))
  {
    ConvertStringToBooleanAccepts("TRUE");
    ConvertStringToBooleanAccepts("True");
    ConvertStringToBooleanAccepts(" true");
    ConvertStringToBooleanAccepts("yes");
    ConvertStringToBooleanAccepts("1");
    ConvertStringToBooleanAccepts("false");
  }
}

/**
 * The JavaScript values the event serialiser handles as option values, and
 * the three ways it turns them into text: truthiness, interpolation into a
 * template literal, and an explicit `.toString()` call.
 */
module JsValues {
  import opened Basics
  import opened Strings

  /** A primitive value; numbers are the safe integers here. */
  datatype JsValue =
    | JsUndefined
    | JsNull
    | JsBool(b: bool)
    | JsNumber(n: SafeInteger)
    | JsString(s: string)

  /** `!!v`. */
  predicate Truthy(v: JsValue)
  {
    match v
    case JsUndefined => false
    case JsNull => false
    case JsBool(b) => b
    case JsNumber(n) => n != 0
    case JsString(s) => s != ""
  }

  /** `${v}`: never throws, prints `undefined` and `null` literally. */
  function TemplateText(v: JsValue): string
  {
    match v
    case JsUndefined => "undefined"
    case JsNull => "null"
    case JsBool(b) => if b then "true" else "false"
    case JsNumber(n) => IntToDecimal(n)
    case JsString(s) => s
  }

  /** The TypeError of reading a property of `undefined` or `null`; engines word it differently, so the text is a placeholder. */
  const NoPropertiesError := "TypeError: cannot read properties of undefined or null (reading 'toString')"

  /** `v.toString()`: throws on `undefined` and `null`, otherwise agrees with the template text. */
  function ToStringCall(v: JsValue): (r: Result<string, string>)
    ensures r.Failure? <==> v == JsUndefined || v == JsNull
    ensures r.Success? ==> r.value == TemplateText(v)
  {
    match v
    case JsUndefined => Failure(NoPropertiesError)
    case JsNull => Failure(NoPropertiesError)
    case _ => Success(TemplateText(v))
  }

  /**
   * A plain object's own enumerable properties, in insertion order (array-index
   * keys are not moved first). A JavaScript object has each key at most once,
   * so the lists that stand for real objects have distinct keys; `Get` reads
   * the first property with a key, which is then the only one.
   */
  type Options = seq<(string, JsValue)>

  /** `options[key]`: `undefined` when the key is absent. */
  function Get(options: Options, key: string): (v: JsValue)
    ensures v != JsUndefined ==> exists i :: 0 <= i < |options| && options[i] == (key, v)
  {
    if options == [] then JsUndefined
    else if options[0].0 == key then options[0].1
    else
      var v := Get(options[1..], key);
      assert forall i :: 1 <= i < |options| ==> options[i] == options[1..][i - 1];
      v
  }

  /**
   * The lookup finds the first property with the key, and gives `undefined`
   * when no property has it.
   */
  lemma {:induction false} GetReadsFirst(options: Options, key: string)
    ensures forall i :: 0 <= i < |options| && options[i].0 == key && (forall j :: 0 <= j < i ==> options[j].0 != key)
              ==> Get(options, key) == options[i].1
    ensures (forall i :: 0 <= i < |options| ==> options[i].0 != key) ==> Get(options, key) == JsUndefined
  {
    if options != [] {
      GetReadsFirst(options[1..], key);
      assert forall i :: 1 <= i < |options| ==> options[i] == options[1..][i - 1];
    }
  }

  /** One step of the lookup: the first property answers when its key matches. */
  lemma GetStep(options: Options, key: string)
    requires options != []
    ensures Get(options, key) == if options[0].0 == key then options[0].1 else Get(options[1..], key)
  {
  }

  /** The rest object of `const { eventId, retryDuration, ...rest } = options`. */
  function Without(options: Options, keys: seq<string>): (rest: Options)
    ensures forall i :: 0 <= i < |rest| ==> rest[i].0 !in keys && rest[i] in options
    ensures forall p :: p in options && p.0 !in keys ==> p in rest
  {
    if options == [] then []
    else if options[0].0 in keys then Without(options[1..], keys)
    else [options[0]] + Without(options[1..], keys)
  }

  /** `positions` picks `rest` out of `options`, in increasing order. */
  ghost predicate Picks(options: Options, rest: Options, positions: seq<nat>)
  {
    && |positions| == |rest|
    && (forall k :: 0 <= k < |positions| ==> positions[k] < |options| && rest[k] == options[positions[k]])
    && (forall k, l :: 0 <= k < l < |positions| ==> positions[k] < positions[l])
  }

  /**
   * The rest object is the subsequence of the properties whose keys are not
   * excluded: `positions` picks them out of `options`, in increasing order,
   * and every property it skips is excluded.
   */
  lemma {:induction false} WithoutKeepsOrder(options: Options, keys: seq<string>) returns (positions: seq<nat>)
    ensures var rest := Without(options, keys);
      && |positions| == |rest|
      && (forall k :: 0 <= k < |positions| ==> positions[k] < |options| && rest[k] == options[positions[k]])
      && (forall k, l :: 0 <= k < l < |positions| ==> positions[k] < positions[l])
      && (forall i :: 0 <= i < |options| && options[i].0 !in keys ==> i in positions)
  {
    if options == [] {
      positions := [];
    } else {
      var tail := WithoutKeepsOrder(options[1..], keys);
      WithoutStep(options, keys);
      positions := ExtendPositions(options, keys, Without(options[1..], keys), tail);
    }
  }

  /** The positions of the rest of the tail, extended by the first property when it stays. */
  lemma ExtendPositions(options: Options, keys: seq<string>, rest: Options, tail: seq<nat>) returns (positions: seq<nat>)
    requires options != [] && Picks(options[1..], rest, tail)
    requires forall i :: 0 <= i < |options| - 1 && options[1..][i].0 !in keys ==> i in tail
    ensures Picks(options, (if options[0].0 in keys then [] else [options[0]]) + rest, positions)
    ensures forall i :: 0 <= i < |options| && options[i].0 !in keys ==> i in positions
  {
    var shifted := PicksShift(options, rest, tail);
    ShiftCovers(options, keys, tail, shifted);
    if options[0].0 in keys {
      positions := shifted;
      assert [] + rest == rest;
    } else {
      positions := [0] + shifted;
      PicksCons(options, rest, shifted);
      ConsCovers(options, keys, shifted);
    }
  }

  /** Every kept property of the tail is picked, so after the shift every kept property past the first is. */
  lemma ShiftCovers(options: Options, keys: seq<string>, tail: seq<nat>, shifted: seq<nat>)
    requires options != [] && |shifted| == |tail| && forall k :: 0 <= k < |tail| ==> shifted[k] == tail[k] + 1
    requires forall i :: 0 <= i < |options| - 1 && options[1..][i].0 !in keys ==> i in tail
    ensures forall i :: 1 <= i < |options| && options[i].0 !in keys ==> i in shifted
  {
    forall i | 1 <= i < |options| && options[i].0 !in keys
      ensures i in shifted
    {
      assert options[1..][i - 1] == options[i];
      var k :| 0 <= k < |tail| && tail[k] == i - 1;
      assert shifted[k] == i;
    }
  }

  /** Putting position 0 in front covers the first property as well. */
  lemma ConsCovers(options: Options, keys: seq<string>, shifted: seq<nat>)
    requires options != []
    requires forall i :: 1 <= i < |options| && options[i].0 !in keys ==> i in shifted
    ensures forall i :: 0 <= i < |options| && options[i].0 !in keys ==> i in [0] + shifted
  {
    forall i | 0 <= i < |options| && options[i].0 !in keys
      ensures i in [0] + shifted
    {
      if i > 0 {
        var k :| 0 <= k < |shifted| && shifted[k] == i;
        assert ([0] + shifted)[k + 1] == i;
      }
    }
  }

  /** Positions in the tail of the properties, moved one place right, pick the same properties out of the whole. */
  lemma PicksShift(options: Options, rest: Options, tail: seq<nat>) returns (shifted: seq<nat>)
    requires options != [] && Picks(options[1..], rest, tail)
    ensures Picks(options, rest, shifted)
    ensures |shifted| == |tail| && forall k :: 0 <= k < |tail| ==> shifted[k] == tail[k] + 1
  {
    shifted := seq(|tail|, k requires 0 <= k < |tail| => tail[k] + 1);
  }

  /** Picking the first property as well puts position 0 in front. */
  lemma PicksCons(options: Options, rest: Options, positions: seq<nat>)
    requires options != [] && Picks(options, rest, positions)
    requires forall k :: 0 <= k < |positions| ==> positions[k] > 0
    ensures Picks(options, [options[0]] + rest, [0] + positions)
  {
  }

  /** One step of the rest object: the first property stays unless its key is excluded. */
  lemma WithoutStep(options: Options, keys: seq<string>)
    requires options != []
    ensures Without(options, keys) == (if options[0].0 in keys then [] else [options[0]]) + Without(options[1..], keys)
  {
  }

  // ---------------------------------------------------------------------
  // Property order.
  // ---------------------------------------------------------------------

  /**
   * An array index (section 6.1.7 of ECMA-262): the canonical decimal
   * numeral of an integer from 0 to 2^32 - 2.
   */
  predicate IsArrayIndex(key: string)
  {
    AllDigits(key) && (key[0] != '0' || |key| == 1) && ParseDecimal(key) <= 0xFFFF_FFFE
  }

  /** Array indices only, in ascending numeric order. */
  predicate AscendingIndices(keys: seq<string>)
  {
    && (forall i :: 0 <= i < |keys| ==> IsArrayIndex(keys[i]))
    && (forall i, j :: 0 <= i < j < |keys| ==> ParseDecimal(keys[i]) <= ParseDecimal(keys[j]))
  }

  /** No key occurs twice. */
  predicate Unique(keys: seq<string>)
  {
    forall i, j :: 0 <= i < j < |keys| ==> keys[i] != keys[j]
  }

  /** Puts an array index before the first larger one. */
  function InsertIndex(key: string, sorted: seq<string>): (r: seq<string>)
    requires IsArrayIndex(key) && AscendingIndices(sorted)
    ensures AscendingIndices(r)
    ensures multiset(r) == multiset(sorted) + multiset{key}
  {
    if sorted == [] || ParseDecimal(key) <= ParseDecimal(sorted[0]) then
      ConsAscending(key, sorted);
      [key] + sorted
    else
      var r := InsertIndex(key, sorted[1..]);
      assert sorted == [sorted[0]] + sorted[1..];
      AboveFirst(sorted, key, r);
      ConsAscending(sorted[0], r);
      [sorted[0]] + r
  }

  /** An array index no larger than the head of an ascending list can go in front. */
  lemma ConsAscending(key: string, sorted: seq<string>)
    requires IsArrayIndex(key) && AscendingIndices(sorted)
    requires sorted != [] ==> ParseDecimal(key) <= ParseDecimal(sorted[0])
    ensures AscendingIndices([key] + sorted)
  {
    var r := [key] + sorted;
    forall i, j | 0 <= i < j < |r| ensures ParseDecimal(r[i]) <= ParseDecimal(r[j]) {
      if i == 0 {
        assert r[j] == sorted[j - 1];
      } else {
        assert r[i] == sorted[i - 1] && r[j] == sorted[j - 1];
      }
    }
  }

  /** Inserting a larger index into the tail keeps every element above the head. */
  lemma AboveFirst(sorted: seq<string>, key: string, r: seq<string>)
    requires IsArrayIndex(key) && AscendingIndices(sorted) && sorted != []
    requires ParseDecimal(sorted[0]) < ParseDecimal(key)
    requires AscendingIndices(r) && multiset(r) == multiset(sorted[1..]) + multiset{key}
    ensures r != [] ==> ParseDecimal(sorted[0]) <= ParseDecimal(r[0])
  {
    if r != [] {
      assert r[0] in multiset(r);
      if r[0] != key {
        assert r[0] in multiset(sorted[1..]);
        var k :| 0 <= k < |sorted[1..]| && sorted[1..][k] == r[0];
        assert r[0] == sorted[k + 1];
      }
    }
  }

  /** The array-index keys, in ascending numeric order. */
  function IndexKeys(keys: seq<string>): (r: seq<string>)
    ensures AscendingIndices(r)
  {
    if keys == [] then []
    else
      var last := keys[|keys| - 1];
      if IsArrayIndex(last) then InsertIndex(last, IndexKeys(keys[..|keys| - 1])) else IndexKeys(keys[..|keys| - 1])
  }

  /** The keys that are not array indices, in creation order. */
  function OtherKeys(keys: seq<string>): (r: seq<string>)
    ensures forall i :: 0 <= i < |r| ==> !IsArrayIndex(r[i])
  {
    if keys == [] then []
    else
      var last := keys[|keys| - 1];
      OtherKeys(keys[..|keys| - 1]) + if IsArrayIndex(last) then [] else [last]
  }

  /** Together the two kinds of key are the keys. */
  lemma {:induction false} PartitionKeys(keys: seq<string>)
    ensures multiset(IndexKeys(keys)) + multiset(OtherKeys(keys)) == multiset(keys)
  {
    if keys != [] {
      var init := keys[..|keys| - 1];
      var last := keys[|keys| - 1];
      PartitionKeys(init);
      assert keys == init + [last];
      assert multiset(keys) == multiset(init) + multiset{last};
      if IsArrayIndex(last) {
        assert IndexKeys(keys) == InsertIndex(last, IndexKeys(init));
        assert OtherKeys(keys) == OtherKeys(init);
      } else {
        assert IndexKeys(keys) == IndexKeys(init);
        assert OtherKeys(keys) == OtherKeys(init) + [last];
      }
    }
  }

  /**
   * The order in which `Object.keys` and `JSON.stringify` list a plain
   * object's own string keys (OrdinaryOwnPropertyKeys, section 10.1.11.1 of
   * ECMA-262), given the order in which they were created: the array
   * indices first, in ascending numeric order, then every other key in
   * creation order. It is a permutation of the keys.
   */
  function OwnKeys(created: seq<string>): (r: seq<string>)
    ensures multiset(r) == multiset(created)
    ensures forall i, j :: 0 <= i < j < |r| && IsArrayIndex(r[j]) ==> IsArrayIndex(r[i]) && ParseDecimal(r[i]) <= ParseDecimal(r[j])
    ensures |OtherKeys(created)| <= |r| && r[|r| - |OtherKeys(created)|..] == OtherKeys(created)
  {
    PartitionKeys(created);
    var indices := IndexKeys(created);
    var others := OtherKeys(created);
    assert (indices + others)[|indices|..] == others;
    indices + others
  }

  /** The other keys of a concatenation are those of each part, in order. */
  lemma {:induction false} OtherKeysAppend(a: seq<string>, b: seq<string>)
    ensures OtherKeys(a + b) == OtherKeys(a) + OtherKeys(b)
    decreases |b|
  {
    if b == [] {
      assert a + b == a;
    } else {
      var init := b[..|b| - 1];
      OtherKeysAppend(a, init);
      assert (a + b)[..|a + b| - 1] == a + init;
    }
  }

  /** Keys none of which is an array index keep their creation order. */
  lemma {:induction false} OwnKeysWithoutIndices(created: seq<string>)
    requires forall i :: 0 <= i < |created| ==> !IsArrayIndex(created[i])
    ensures OwnKeys(created) == created
  {
    NoIndexKeys(created);
  }

  lemma {:induction false} NoIndexKeys(created: seq<string>)
    requires forall i :: 0 <= i < |created| ==> !IsArrayIndex(created[i])
    ensures IndexKeys(created) == [] && OtherKeys(created) == created
  {
    if created != [] {
      var init := created[..|created| - 1];
      var last := created[|created| - 1];
      assert forall i :: 0 <= i < |init| ==> init[i] == created[i];
      NoIndexKeys(init);
      assert !IsArrayIndex(last);
      assert OtherKeys(created) == OtherKeys(init) + [last];
      assert created == init + [last];
    }
  }

  /** A permutation of keys that occur once each has no key twice either. */
  lemma PermutationUnique(a: seq<string>, b: seq<string>)
    requires multiset(a) == multiset(b) && Unique(a)
    ensures Unique(b)
  {
    UniqueCounts(a);
    forall i, j | 0 <= i < j < |b| ensures b[i] != b[j] {
      if b[i] == b[j] {
        RepeatCounts(b, i, j);
        assert false;
      }
    }
  }

  /** A key at two positions is counted at least twice. */
  lemma RepeatCounts(b: seq<string>, i: int, j: int)
    requires 0 <= i < j < |b| && b[i] == b[j]
    ensures multiset(b)[b[i]] >= 2
  {
    assert b == b[..j] + [b[j]] + b[j + 1..];
    assert b[..j][i] == b[i];
  }

  /** In a list without repetition every key is counted at most once. */
  lemma {:induction false} UniqueCounts(a: seq<string>)
    requires Unique(a)
    ensures forall x :: multiset(a)[x] <= 1
  {
    if a != [] {
      UniqueCounts(a[1..]);
      assert a == [a[0]] + a[1..];
      assert a[0] !in a[1..];
    }
  }
}

/**
 * The colour catalog of the content scripts (data.js): a table from
 * six-digit lower-case hex codes to the colour names and season
 * classifications known for them, the RGB value cached for each code at
 * load, the nearest-colour search and the lookup that annotates the record
 * it returns.
 *
 * The literal table itself is data, not logic: the catalog is built from a
 * key order and a map given to its constructor.
 */
module Catalog {
  import opened Wrappers
  import opened Text
  import opened Types
  import Utilities

  /** The kind of information a lookup asks for. */
  datatype Kind = Names | Seasons

  /** Any requested type other than "names" and "seasons" is read as "seasons". */
  function NormaliseKind(dataType: string): (k: Kind)
    ensures k == Names <==> dataType == "names"
  {
    if dataType != "names" && dataType != "seasons" then Seasons
    else if dataType == "names" then Names
    else Seasons
  }

  datatype Payload =
    | NameList(names: seq<NameInfo>)
    | SeasonLists(good: seq<SeasonInfo>, bad: seq<SeasonInfo>)

  /**
   * The object stored under `names` or `seasons`. A lookup writes `hex` and
   * `isExactMatch` onto it; the same object stays in the table.
   */
  datatype Record = Record(payload: Payload, hex: Option<string>, isExactMatch: Option<bool>)

  datatype Entry = Entry(names: Option<Record>, seasons: Option<Record>, rgb: Option<Utilities.Rgb>)

  function RecordOf(e: Entry, kind: Kind): Option<Record> {
    if kind == Names then e.names else e.seasons
  }

  function WithRecord(e: Entry, kind: Kind, r: Record): (e': Entry)
    ensures RecordOf(e', kind) == Some(r)
    ensures e'.rgb == e.rgb && RecordOf(e', if kind == Names then Seasons else Names) == RecordOf(e, if kind == Names then Seasons else Names)
  {
    if kind == Names then e.(names := Some(r)) else e.(seasons := Some(r))
  }

  /** A catalog key: six lower-case hex digits, no '#'. */
  predicate IsKey(k: string) {
    |k| == 6 && forall i :: 0 <= i < 6 ==> IsLowerHexDigit(k[i])
  }

  /**
   * The distance compared by findClosestHex. The source compares Euclidean
   * distances; their squares compare the same way, and a NaN component of the
   * origin makes the distance NaN.
   */
  datatype Diff = NaN | Dist(d: nat)

  function Distance(origin: Utilities.Rgb, c: Utilities.Rgb): (d: Diff)
    ensures d.Dist? <==> origin.IsNumeric() && c.IsNumeric()
    ensures d == Dist(0) <==> origin.IsNumeric() && origin == c
  {
    if origin.IsNumeric() && c.IsNumeric() then
      var dr := origin.r.value - c.r.value;
      var dg := origin.g.value - c.g.value;
      var db := origin.b.value - c.b.value;
      Dist(dr * dr + dg * dg + db * db)
    else NaN
  }

  /** `smallestDiff < 0 || smallestDiff > currentDiff`: the first distance, or a strictly smaller one; NaN compares false. */
  predicate Improves(smallest: Option<Diff>, current: Diff) {
    smallest.None? || (smallest.value.Dist? && current.Dist? && smallest.value.d > current.d)
  }

  /** A key that has a record of the requested kind. */
  predicate IsCandidate(colors: map<string, Entry>, kind: Kind, k: string) {
    k in colors && RecordOf(colors[k], kind).Some?
  }

  function DistanceOf(colors: map<string, Entry>, origin: Utilities.Rgb, k: string): Diff {
    if k in colors && colors[k].rgb.Some? then Distance(origin, colors[k].rgb.value) else NaN
  }

  /** Every entry has a cached colour that parsed. */
  predicate AllNumeric(colors: map<string, Entry>) {
    forall k :: k in colors ==> colors[k].rgb.Some? && colors[k].rgb.value.IsNumeric()
  }

  predicate Distinct(keys: seq<string>) {
    forall j, j' :: 0 <= j' < j < |keys| ==> keys[j'] != keys[j]
  }

  /** The best key so far and its distance (None for the initial -1). */
  datatype ScanState = ScanState(closest: Option<string>, smallest: Option<Diff>)

  /** The state of findClosestHex's scan after visiting the given keys in order. */
  function Scan(colors: map<string, Entry>, origin: Utilities.Rgb, kind: Kind, keys: seq<string>): ScanState
    decreases |keys|
  {
    if keys == [] then ScanState(None, None)
    else
      var st := Scan(colors, origin, kind, keys[..|keys| - 1]);
      var k := keys[|keys| - 1];
      if IsCandidate(colors, kind, k) && Improves(st.smallest, DistanceOf(colors, origin, k))
      then ScanState(Some(k), Some(DistanceOf(colors, origin, k)))
      else st
  }

  /** The scan finds a key exactly when one of the keys has the kind, and keeps that key's distance. */
  lemma {:induction false} ScanFinds(colors: map<string, Entry>, origin: Utilities.Rgb, kind: Kind, keys: seq<string>)
    ensures var st := Scan(colors, origin, kind, keys);
      && (st.closest.None? <==> forall j :: 0 <= j < |keys| ==> !IsCandidate(colors, kind, keys[j]))
      && (st.closest.None? <==> st.smallest.None?)
      && (st.closest.Some? ==>
            && st.closest.value in keys
            && IsCandidate(colors, kind, st.closest.value)
            && st.smallest == Some(DistanceOf(colors, origin, st.closest.value)))
    decreases |keys|
  {
    if keys != [] {
      var init := keys[..|keys| - 1];
      ScanFinds(colors, origin, kind, init);
      assert forall j :: 0 <= j < |init| ==> init[j] == keys[j];
      assert forall k :: k in init ==> k in keys;
    }
  }

  /** For a parsed origin, no key of the kind is nearer than the one found. */
  lemma {:induction false} ScanNearest(colors: map<string, Entry>, origin: Utilities.Rgb, kind: Kind, keys: seq<string>)
    requires origin.IsNumeric() && AllNumeric(colors)
    ensures var st := Scan(colors, origin, kind, keys);
      st.closest.Some? && IsCandidate(colors, kind, st.closest.value) ==>
        forall j :: 0 <= j < |keys| && IsCandidate(colors, kind, keys[j]) ==>
          DistanceOf(colors, origin, st.closest.value).d <= DistanceOf(colors, origin, keys[j]).d
    decreases |keys|
  {
    if keys != [] {
      var init := keys[..|keys| - 1];
      ScanNearest(colors, origin, kind, init);
      ScanFinds(colors, origin, kind, init);
      assert forall j :: 0 <= j < |init| ==> init[j] == keys[j];
    }
  }

  /** For a parsed origin, every key of the kind visited before the one found is strictly farther. */
  lemma {:induction false} ScanFirstOfNearest(colors: map<string, Entry>, origin: Utilities.Rgb, kind: Kind, keys: seq<string>)
    requires origin.IsNumeric() && AllNumeric(colors) && Distinct(keys)
    ensures var st := Scan(colors, origin, kind, keys);
      st.closest.Some? && IsCandidate(colors, kind, st.closest.value) ==>
        forall j, j' :: 0 <= j' < j < |keys| && keys[j] == st.closest.value && IsCandidate(colors, kind, keys[j']) ==>
          DistanceOf(colors, origin, keys[j']).d > DistanceOf(colors, origin, st.closest.value).d
    decreases |keys|
  {
    if keys != [] {
      var init := keys[..|keys| - 1];
      assert forall j :: 0 <= j < |init| ==> init[j] == keys[j];
      ScanFirstOfNearest(colors, origin, kind, init);
      ScanNearest(colors, origin, kind, init);
      ScanFinds(colors, origin, kind, init);
    }
  }

  /** For an origin that did not parse, the scan keeps the first key of the kind. */
  lemma {:induction false} ScanUnparsedKeepsFirst(colors: map<string, Entry>, origin: Utilities.Rgb, kind: Kind, keys: seq<string>)
    requires !origin.IsNumeric() && Distinct(keys)
    ensures var st := Scan(colors, origin, kind, keys);
      st.closest.Some? ==>
        forall j, j' :: 0 <= j' < j < |keys| && keys[j] == st.closest.value ==> !IsCandidate(colors, kind, keys[j'])
    decreases |keys|
  {
    if keys != [] {
      var init := keys[..|keys| - 1];
      assert forall j :: 0 <= j < |init| ==> init[j] == keys[j];
      ScanUnparsedKeepsFirst(colors, origin, kind, init);
      ScanFinds(colors, origin, kind, init);
    }
  }

  /** Two keys with the same colour are the same key. */
  lemma KeysHaveDistinctColours(k1: string, k2: string)
    requires IsKey(k1) && IsKey(k2)
    requires Utilities.HexToRgb(k1) == Utilities.HexToRgb(k2)
    ensures k1 == k2
  {
    Utilities.HexRgbRoundTrip(k1);
    Utilities.HexRgbRoundTrip(k2);
    assert "#" + k1 == "#" + k2;
    assert k1 == ("#" + k1)[1..];
  }

  /** The key order lists each key of the map once, and every key is a catalog key. */
  ghost predicate Loaded(order: seq<string>, colors: map<string, Entry>) {
    && (forall k :: k in colors <==> k in order)
    && Distinct(order)
    && (forall k :: k in colors ==> IsKey(k))
  }

  /** Each entry caches its key's colour. */
  ghost predicate Caches(colors: map<string, Entry>) {
    forall k :: k in colors ==> colors[k].rgb == Some(Utilities.HexToRgb(k))
  }

  /** A loaded and initialised table. */
  ghost predicate IsTable(order: seq<string>, colors: map<string, Entry>) {
    Loaded(order, colors) && Caches(colors)
  }

  lemma TableColoursParsed(order: seq<string>, colors: map<string, Entry>)
    requires IsTable(order, colors)
    ensures AllNumeric(colors)
  {
    forall k | k in colors ensures colors[k].rgb.value.IsNumeric() {
      assert Utilities.HexDigits(k) == k;
      assert Utilities.AllHexDigits(k) by {
        forall i | 0 <= i < |k| ensures IsHexDigit(k[i]) {
          assert IsLowerHexDigit(k[i]);
        }
      }
    }
  }

  /** What the scan over a whole table finds, gathered from the lemmas above. */
  ghost predicate IsClosest(order: seq<string>, colors: map<string, Entry>, origin: Utilities.Rgb, kind: Kind, closest: Option<string>) {
    && (closest.None? <==> forall k :: k in colors ==> !IsCandidate(colors, kind, k))
    && (closest.Some? ==> IsCandidate(colors, kind, closest.value))
    && (closest.Some? && IsCandidate(colors, kind, closest.value) && origin.IsNumeric() && AllNumeric(colors) ==>
          && (forall k :: IsCandidate(colors, kind, k) ==>
                DistanceOf(colors, origin, closest.value).d <= DistanceOf(colors, origin, k).d)
          && (forall j, j' :: 0 <= j' < j < |order| && order[j] == closest.value && IsCandidate(colors, kind, order[j']) ==>
                DistanceOf(colors, origin, order[j']).d > DistanceOf(colors, origin, closest.value).d)
          && (forall k :: IsCandidate(colors, kind, k) && colors[k].rgb == Some(origin) ==> closest == Some(k)))
    && (closest.Some? && !origin.IsNumeric() ==>
          forall j, j' :: 0 <= j' < j < |order| && order[j] == closest.value ==> !IsCandidate(colors, kind, order[j']))
  }

  lemma ScanOfTable(order: seq<string>, colors: map<string, Entry>, origin: Utilities.Rgb, kind: Kind)
    requires IsTable(order, colors)
    ensures AllNumeric(colors)
    ensures IsClosest(order, colors, origin, kind, Scan(colors, origin, kind, order).closest)
  {
    var closest := Scan(colors, origin, kind, order).closest;
    TableColoursParsed(order, colors);
    ScanFinds(colors, origin, kind, order);
    forall k | IsCandidate(colors, kind, k) ensures exists j :: 0 <= j < |order| && order[j] == k {
      assert k in order;
    }
    if origin.IsNumeric() {
      ScanNearest(colors, origin, kind, order);
      ScanFirstOfNearest(colors, origin, kind, order);
      if closest.Some? {
        forall k | IsCandidate(colors, kind, k) && colors[k].rgb == Some(origin) ensures closest == Some(k) {
          var c := closest.value;
          assert DistanceOf(colors, origin, c).d <= 0;
          KeysHaveDistinctColours(c, k);
        }
      }
    } else {
      ScanUnparsedKeepsFirst(colors, origin, kind, order);
    }
  }

  /** The record handed back for key k, stamped with the key's display code and the match flag. */
  function Annotated(r: Record, k: string, exact: bool): (r': Record)
    ensures r'.payload == r.payload && r'.isExactMatch == Some(exact)
    ensures r'.hex.Some? && |r'.hex.value| > 0 && r'.hex.value[0] == '#' && NoLower(r'.hex.value)
    ensures IsKey(k) ==> Utilities.HexLowerNoHash(r'.hex.value) == k
  {
    r.(hex := Some(Utilities.HexUpperWithHash(k)), isExactMatch := Some(exact))
  }

  /**
   * The key getColorData answers from: the normalised code itself when it
   * holds a record of the kind, otherwise the key findClosestHex finds.
   */
  ghost function LookupKey(order: seq<string>, colors: map<string, Entry>, hex: string, kind: Kind): Option<string> {
    if IsCandidate(colors, kind, hex) then Some(hex)
    else Scan(colors, Utilities.HexToRgb(hex), kind, order).closest
  }

  /**
   * A lookup finds a key exactly when some key has the kind; the key has the
   * kind; it is the code itself exactly when the code has the kind, and
   * otherwise the nearest key in the sense of findClosestHex.
   */
  lemma LookupKeyFinds(order: seq<string>, colors: map<string, Entry>, hex: string, kind: Kind)
    requires IsTable(order, colors)
    ensures var k := LookupKey(order, colors, hex, kind);
      && (k.None? <==> forall k' :: k' in colors ==> !IsCandidate(colors, kind, k'))
      && (k.Some? ==> IsCandidate(colors, kind, k.value))
      && (k == Some(hex) <==> IsCandidate(colors, kind, hex))
      && (!IsCandidate(colors, kind, hex) ==> IsClosest(order, colors, Utilities.HexToRgb(hex), kind, k))
  {
    ScanOfTable(order, colors, Utilities.HexToRgb(hex), kind);
  }

  /** Stamping a record leaves a table a table. */
  lemma AnnotatingKeepsTable(order: seq<string>, colors: map<string, Entry>, k: string, kind: Kind, r: Record)
    requires IsTable(order, colors) && k in colors
    ensures Loaded(order, colors[k := WithRecord(colors[k], kind, r)])
    ensures Caches(colors[k := WithRecord(colors[k], kind, r)])
  {
    var m := colors[k := WithRecord(colors[k], kind, r)];
    assert m.Keys == colors.Keys;
    SameKeysLoaded(order, colors, m);
    StampingKeepsCache(colors, k, WithRecord(colors[k], kind, r));
  }

  lemma SameKeysLoaded(order: seq<string>, colors: map<string, Entry>, m: map<string, Entry>)
    requires Loaded(order, colors) && m.Keys == colors.Keys
    ensures Loaded(order, m)
  {
    forall k
      ensures k in m <==> k in order
    {
      assert k in m <==> k in colors;
    }
    forall k | k in m
      ensures IsKey(k)
    {
      assert k in colors;
    }
  }

  lemma StampingKeepsCache(colors: map<string, Entry>, k: string, e: Entry)
    requires Caches(colors) && k in colors && e.rgb == colors[k].rgb
    ensures Caches(colors[k := e])
  {
    forall k' | k' in colors[k := e]
      ensures colors[k := e][k'].rgb == colors[k'].rgb
    {
    }
  }

  /** An entry with the colour of its key cached. */
  function Cached(e: Entry, k: string): (e': Entry)
    ensures e'.names == e.names && e'.seasons == e.seasons
  {
    e.(rgb := Some(Utilities.HexToRgb(k)))
  }

  /** The table after init has visited the given keys in order. */
  function CacheAll(colors: map<string, Entry>, keys: seq<string>): map<string, Entry>
    decreases |keys|
  {
    if keys == [] then colors
    else
      var m := CacheAll(colors, keys[..|keys| - 1]);
      var k := keys[|keys| - 1];
      if k in m then m[k := Cached(m[k], k)] else m
  }

  /** Visiting keys caches the colour of exactly the visited entries and adds no entry. */
  lemma {:induction false} CacheAllAt(colors: map<string, Entry>, keys: seq<string>)
    ensures CacheAll(colors, keys).Keys == colors.Keys
    ensures forall k :: k in colors ==>
      CacheAll(colors, keys)[k] == if k in keys then Cached(colors[k], k) else colors[k]
    decreases |keys|
  {
    if keys != [] {
      var init := keys[..|keys| - 1];
      CacheAllAt(colors, init);
      assert keys == init + [keys[|keys| - 1]];
    }
  }

  /** The loop of findClosestHex over the keys in order. */
  method ScanKeys(colors: map<string, Entry>, origin: Utilities.Rgb, kind: Kind, order: seq<string>) returns (closest: Option<string>)
    ensures closest == Scan(colors, origin, kind, order).closest
  {
    closest := None;
    var smallest: Option<Diff> := None;
    var i := 0;
    while i < |order|
      invariant 0 <= i <= |order|
      invariant ScanState(closest, smallest) == Scan(colors, origin, kind, order[..i])
    {
      assert order[..i + 1][..i] == order[..i];
      var currentHex := order[i];
      if IsCandidate(colors, kind, currentHex) {
        var currentDiff := DistanceOf(colors, origin, currentHex);
        if Improves(smallest, currentDiff) {
          smallest := Some(currentDiff);
          closest := Some(currentHex);
        }
      }
      i := i + 1;
    }
    assert order[..i] == order;
  }

  class ColorData {
    /** The order in which Object.keys visits the table. */
    var order: seq<string>
    var colors: map<string, Entry>

    ghost predicate Valid()
      reads this
    {
      Loaded(order, colors)
    }

    /** After init, every entry holds the RGB value of its own key. */
    ghost predicate Initialised()
      reads this
    {
      Caches(colors)
    }

    /** The table as loaded, then init: every entry gets the RGB value of its key. */
    constructor(keys: seq<string>, entries: map<string, Entry>)
      requires forall k :: k in entries <==> k in keys
      requires Distinct(keys)
      requires forall k :: k in entries ==> IsKey(k)
      ensures Valid() && Initialised()
      ensures order == keys
      ensures colors.Keys == entries.Keys
      ensures forall k :: k in entries ==> colors[k] == Cached(entries[k], k)
    {
      order := keys;
      colors := entries;
      new;
      Init();
    }

    /** init: cache the RGB value of every key, in key order. */
    method Init()
      modifies this
      requires Valid()
      ensures Valid() && Initialised()
      ensures order == old(order) && colors.Keys == old(colors).Keys
      ensures forall k :: k in old(colors) ==> colors[k] == Cached(old(colors)[k], k)
    {
      for i := 0 to |order|
        invariant order == old(order)
        invariant colors == CacheAll(old(colors), order[..i])
      {
        assert order[..i + 1][..i] == order[..i];
        CacheAllAt(old(colors), order[..i]);
        var hex := order[i];
        colors := colors[hex := Cached(colors[hex], hex)];
      }
      assert order[..|order|] == order;
      CacheAllAt(old(colors), order);
    }

    /**
     * findClosestHex: scan the keys in order, keep the first key of the
     * requested kind whose distance to the origin is strictly smaller than
     * the best so far. The result is nothing exactly when no key has the kind;
     * otherwise a key of that kind nearest to the origin and the first such in
     * key order; the key whose colour is the origin's when there is one; and,
     * for an origin that does not parse, the first key of the kind.
     */
    method FindClosestHex(originHexCode: string, kind: Kind) returns (closest: Option<string>)
      requires Valid() && Initialised()
      ensures closest == Scan(colors, Utilities.HexToRgb(originHexCode), kind, order).closest
      ensures AllNumeric(colors) && IsClosest(order, colors, Utilities.HexToRgb(originHexCode), kind, closest)
    {
      var origin := Utilities.HexToRgb(originHexCode);
      assert IsTable(order, colors);
      ScanOfTable(order, colors, origin, kind);
      closest := ScanKeys(colors, origin, kind, order);
    }

    /**
     * getColorData: the record of the requested kind under the normalised
     * code when there is one, marked as an exact match; otherwise the record
     * of the nearest key of that kind, marked as not exact; nothing when no key
     * has the kind. The record returned carries the upper-case code of the key
     * it came from, and the table now holds that same stamped record.
     */
    method GetColorData(originHexCode: string, dataType: string) returns (data: Option<Record>)
      modifies this
      requires Valid() && Initialised()
      ensures Valid() && Initialised() && order == old(order)
      ensures var hex := Utilities.HexLowerNoHash(originHexCode);
        var key := LookupKey(old(order), old(colors), hex, NormaliseKind(dataType));
        && (data.None? <==> key.None?)
        && (data.None? ==> colors == old(colors))
        && (data.Some? ==>
              && key.value in old(colors)
              && RecordOf(old(colors)[key.value], NormaliseKind(dataType)).Some?
              && data.value == Annotated(RecordOf(old(colors)[key.value], NormaliseKind(dataType)).value, key.value, key.value == hex)
              && colors == old(colors)[key.value := WithRecord(old(colors)[key.value], NormaliseKind(dataType), data.value)])
    {
      var kind := NormaliseKind(dataType);
      var hex := Utilities.HexLowerNoHash(originHexCode);
      assert IsTable(order, colors);
      data := None;
      if IsCandidate(colors, kind, hex) {
        var record := Annotated(RecordOf(colors[hex], kind).value, hex, true);
        AnnotatingKeepsTable(order, colors, hex, kind, record);
        colors := colors[hex := WithRecord(colors[hex], kind, record)];
        data := Some(record);
      } else {
        var closestHex := FindClosestHex(hex, kind);
        assert closestHex == LookupKey(order, colors, hex, kind);
        if closestHex.Some? {
          var k := closestHex.value;
          var record := Annotated(RecordOf(colors[k], kind).value, k, false);
          AnnotatingKeepsTable(order, colors, k, kind, record);
          colors := colors[k := WithRecord(colors[k], kind, record)];
          data := Some(record);
        }
      }
      assert IsTable(order, colors);
    }
  }
}

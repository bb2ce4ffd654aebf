/**
 * The comparator cache of the combination selector (map_cache.go): a
 * `map[string]bool` keyed by `"%d:%d:%d:%d"` of two (impression, bid)
 * positions. A Go `Get` returns `(value, ok)`; here an `Option<bool>`.
 */
module PairCache {
  import opened Optional
  import opened Decimal

  datatype MapCache = MapCache(entries: map<string, bool>)

  /** `NewMapCache`: a cache in which no tuple has been stored. */
  function NewMapCache(): (c: MapCache)
    ensures forall xImp, xIndex, yImp, yIndex :: Get(c, xImp, xIndex, yImp, yIndex) == None
  {
    MapCache(map[])
  }

  /**
   * `getKey`: the four integers in decimal, separated by colons. What the
   * key promises is stated by `KeySplits` (it splits back into the four
   * renderings) and `KeyInjective` (distinct tuples, distinct keys), kept
   * out of this contract so that every use of the cache does not carry them.
   */
  function GetKey(xImp: int, xIndex: int, yImp: int, yIndex: int): string {
    IntToString(xImp) + ":" + IntToString(xIndex) + ":" + IntToString(yImp) + ":" + IntToString(yIndex)
  }

  /** Splitting a key at its colons gives back the four decimal renderings. */
  lemma KeySplits(xImp: int, xIndex: int, yImp: int, yIndex: int)
    ensures Split(GetKey(xImp, xIndex, yImp, yIndex), ':')
         == [IntToString(xImp), IntToString(xIndex), IntToString(yImp), IntToString(yIndex)]
  {
    var parts := [IntToString(xImp), IntToString(xIndex), IntToString(yImp), IntToString(yIndex)];
    forall i | 0 <= i < |parts| ensures ':' !in parts[i] {
      NoColon(parts[i]);
    }
    SplitJoin(parts, ':');
    JoinFour(parts, ':');
  }

  lemma JoinFour(parts: seq<string>, sep: char)
    requires |parts| == 4
    ensures Join(parts, sep) == parts[0] + [sep] + parts[1] + [sep] + parts[2] + [sep] + parts[3]
  {
    assert parts[1..][1..] == parts[2..];
    assert parts[2..][1..] == parts[3..];
    calc {
      Join(parts, sep);
      parts[0] + [sep] + Join(parts[1..], sep);
      parts[0] + [sep] + (parts[1] + [sep] + Join(parts[2..], sep));
      parts[0] + [sep] + (parts[1] + [sep] + (parts[2] + [sep] + parts[3]));
      parts[0] + [sep] + parts[1] + [sep] + parts[2] + [sep] + parts[3];
    }
  }

  lemma NoColon(s: string)
    requires forall i :: 0 <= i < |s| ==> s[i] == '-' || IsDigit(s[i])
    ensures ':' !in s
  {
  }

  /** Distinct position 4-tuples have distinct keys. */
  lemma KeyInjective(a: (int, int, int, int), b: (int, int, int, int))
    requires GetKey(a.0, a.1, a.2, a.3) == GetKey(b.0, b.1, b.2, b.3)
    ensures a == b
  {
    KeySplits(a.0, a.1, a.2, a.3);
    KeySplits(b.0, b.1, b.2, b.3);
    IntToStringInjective(a.0, b.0);
    IntToStringInjective(a.1, b.1);
    IntToStringInjective(a.2, b.2);
    IntToStringInjective(a.3, b.3);
  }

  /** `Set`: store `value` under the key of the 4-tuple, replacing any old one. */
  function Set(c: MapCache, xImp: int, xIndex: int, yImp: int, yIndex: int, value: bool): (r: MapCache)
    ensures Get(r, xImp, xIndex, yImp, yIndex) == Some(value)
    ensures |r.entries.Keys| <= |c.entries.Keys| + 1
  {
    MapCache(c.entries[GetKey(xImp, xIndex, yImp, yIndex) := value])
  }

  /** `Get`: the stored value, or `None` (Go's `ok == false`). */
  function Get(c: MapCache, xImp: int, xIndex: int, yImp: int, yIndex: int): (r: Option<bool>)
    ensures r.Some? <==> GetKey(xImp, xIndex, yImp, yIndex) in c.entries
  {
    var key := GetKey(xImp, xIndex, yImp, yIndex);
    if key in c.entries then Some(c.entries[key]) else None
  }

  /**
   * A `Set` on one tuple leaves `Get` on every other tuple unchanged; in
   * particular the swapped tuple (y, yi, x, xi) is a separate entry, so no
   * symmetry of the comparator is assumed.
   */
  lemma SetLeavesOthers(c: MapCache, a: (int, int, int, int), b: (int, int, int, int), value: bool)
    requires a != b
    ensures Get(Set(c, a.0, a.1, a.2, a.3, value), b.0, b.1, b.2, b.3) == Get(c, b.0, b.1, b.2, b.3)
  {
    if GetKey(a.0, a.1, a.2, a.3) == GetKey(b.0, b.1, b.2, b.3) {
      KeyInjective(a, b);
    }
  }

  /** A later `Set` on the same tuple overwrites the earlier one. */
  lemma SetOverwrites(c: MapCache, a: (int, int, int, int), v1: bool, v2: bool)
    ensures Set(Set(c, a.0, a.1, a.2, a.3, v1), a.0, a.1, a.2, a.3, v2) == Set(c, a.0, a.1, a.2, a.3, v2)
  {
  }

  /** Keys are ordered: swapping the two positions gives another entry. */
  lemma KeysOrdered(x: int, xi: int, y: int, yi: int)
    requires (x, xi) != (y, yi)
    ensures GetKey(x, xi, y, yi) != GetKey(y, yi, x, xi)
  {
    if GetKey(x, xi, y, yi) == GetKey(y, yi, x, xi) {
      KeyInjective((x, xi, y, yi), (y, yi, x, xi));
    }
  }

  /** Concrete keys, as `fmt.Sprintf` renders them. */
  lemma KeyExamples()
    ensures GetKey(0, 1, 2, 10) == "0:1:2:10"
    ensures GetKey(-1, 0, 3, 7) == "-1:0:3:7"
  {
    assert IntToString(0) == "0" && IntToString(1) == "1" && IntToString(2) == "2";
    assert IntToString(3) == "3" && IntToString(7) == "7" && IntToString(-1) == "-1";
    assert IntToString(10) == "10" by {
      assert NatToString(10) == NatToString(1) + [DigitChar(0)];
    }
  }
}

/** `LocalBackend.list_memories`: pages cut locally from a bounded scan, optionally filtered by metadata. */
module LocalListing {
  import opened Text
  import opened Wrappers

  /** A metadata value; `text` is what `str()` gives for it. */
  datatype Value = Bool(flag: bool) | Plain(text: string) | Dict(entries: map<string, Value>, text: string)

  datatype Item = Item(id: string, metadata: map<string, Value>)

  datatype Listing = Page(items: seq<Item>, warned: bool) | MissingKey | MissingValue

  /** `str(b).lower()`. */
  function BoolText(b: bool): string {
    if b then "true" else "false"
  }

  function Shown(v: Value, wanted: string): bool {
    if v.Bool? then BoolText(v.flag) == Lower(Strip(wanted)) else v.text == wanted
  }

  /** The value a path of keys leads to. */
  function Descend(v: Value, parts: seq<string>): Option<Value> {
    if parts == [] then Some(v)
    else if v.Dict? && parts[0] in v.entries then Descend(v.entries[parts[0]], parts[1..])
    else None
  }

  predicate Matches(metadata: map<string, Value>, key: string, wanted: string) {
    var found := Descend(Dict(metadata, ""), Split(key, '.'));
    found.Some? && Shown(found.value, wanted)
  }

  /** `_metadata_matches`: a cursor walks down the dotted key. */
  method MetadataMatches(metadata: map<string, Value>, key: string, wanted: string) returns (r: bool)
    ensures r == Matches(metadata, key, wanted)
  {
    var cur := Dict(metadata, "");
    var parts := Split(key, '.');
    for i := 0 to |parts|
      invariant Descend(Dict(metadata, ""), parts) == Descend(cur, parts[i..])
    {
      if !cur.Dict? || parts[i] !in cur.entries {
        return false;
      }
      cur := cur.entries[parts[i]];
      assert parts[i..][1..] == parts[i + 1..];
    }
    if cur.Bool? {
      return BoolText(cur.flag) == Lower(Strip(wanted));
    }
    return cur.text == wanted;
  }

  /** A dotted key is a walk: first to the part before the dot, then from there. */
  lemma DottedKeyDescends(v: Value, a: string, b: string)
    ensures var outer := Descend(v, Split(a, '.'));
            Descend(v, Split(a + "." + b, '.'))
            == if outer.Some? then Descend(outer.value, Split(b, '.')) else None
  {
    SplitAtSeparator(a, '.', b);
    DescendInTwo(v, Split(a, '.'), Split(b, '.'));
  }

  lemma {:induction false} DescendInTwo(v: Value, x: seq<string>, y: seq<string>)
    ensures var outer := Descend(v, x);
            Descend(v, x + y) == if outer.Some? then Descend(outer.value, y) else None
    decreases |x|
  {
    if x == [] {
      assert x + y == y;
    } else {
      assert (x + y)[1..] == x[1..] + y;
      if v.Dict? && x[0] in v.entries { DescendInTwo(v.entries[x[0]], x[1..], y); }
    }
  }

  /** A stored bool matches its name in any letter case, whitespace around it aside. */
  lemma BoolMatchesItsName(b: bool, wanted: string) returns (left: string, core: string, right: string)
    ensures wanted == left + core + right && AllSpace(left) && AllSpace(right)
    ensures core != "" ==> !IsSpace(core[0]) && !IsSpace(core[|core| - 1])
    ensures Shown(Bool(b), wanted) <==> Lower(core) == if b then "true" else "false"
  {
    hide Strip, IsSpace, AllSpace;
    left, right := StripSplits(wanted);
    core := Strip(wanted);
  }

  lemma NamesOfBools()
    ensures Shown(Bool(true), " True ") && Shown(Bool(false), "FALSE")
    ensures !Shown(Bool(true), "FALSE") && !Shown(Bool(true), "1")
    ensures Shown(Plain("1"), "1") && !Shown(Plain("True"), "true")
  {
    hide Strip;
    StripOfPadded(" ", "True", " ");
    StripOfPadded("", "FALSE", "");
    StripOfPadded("", "1", "");
    assert " " + "True" + " " == " True " && "" + "FALSE" + "" == "FALSE" && "" + "1" + "" == "1";
    assert Lower("True") == "true" && Lower("FALSE") == "false";
    assert Lower("1")[0] == '1' && "false"[0] == 'f' && "True"[0] == 'T';
  }

  /** A key without a dot is looked up as it is; `a.b` is `b` in the dictionary at `a`, and no match when `a` holds
      anything else. Every value but a bool matches its own text only. */
  lemma KeysAreLookedUp(metadata: map<string, Value>, a: string, b: string, wanted: string)
    requires '.' !in a && '.' !in b
    ensures Matches(metadata, a, wanted) <==> a in metadata && Shown(metadata[a], wanted)
    ensures Matches(metadata, a + "." + b, wanted) <==>
            a in metadata && metadata[a].Dict? && b in metadata[a].entries && Shown(metadata[a].entries[b], wanted)
    ensures forall text :: Shown(Plain(text), wanted) <==> wanted == text
  {
    var v := Dict(metadata, "");
    OnePartIff(a, '.');
    OnePartIff(b, '.');
    DottedKeyDescends(v, a, b);
    DescendOnce(v, a);
    if a in metadata { DescendOnce(metadata[a], b); }
  }

  lemma DescendOnce(v: Value, key: string)
    ensures Descend(v, [key]) == if v.Dict? && key in v.entries then Some(v.entries[key]) else None
  {
    assert [key][1..] == [];
  }

  /** `str()` of a whole number: digits, behind a minus sign when it is negative. */
  predicate IsWholeNumber(text: string) {
    var digits := if text != "" && text[0] == '-' then text[1..] else text;
    digits != "" && forall i :: 0 <= i < |digits| ==> '0' <= digits[i] <= '9'
  }

  /** No filter value matches both a stored bool and a stored whole number. */
  lemma BoolIsNotANumber(b: bool, text: string, wanted: string)
    requires IsWholeNumber(text)
    ensures !(Shown(Bool(b), wanted) && Shown(Plain(text), wanted))
  {
    hide Strip, IsSpace, IsWholeNumber;
    NumberEnds(text);
    NumberStripsToItself(text);
    assert Lower(text)[0] == LowerChar(text[0]) && BoolText(b)[0] in {'t', 'f'};
  }

  lemma NumberEnds(text: string)
    requires IsWholeNumber(text)
    ensures text != "" && (text[0] == '-' || '0' <= text[0] <= '9') && '0' <= text[|text| - 1] <= '9'
  {
    if text[0] == '-' {
      assert text[|text| - 1] == text[1..][|text| - 2];
    }
  }

  lemma NumberStripsToItself(text: string)
    requires IsWholeNumber(text)
    ensures Strip(text) == text
  {
    hide Strip, IsWholeNumber;
    NumberEnds(text);
  }

  // ------------------------------------------------------------------ pages

  type Keep = Item -> bool

  function Filter(items: seq<Item>, keep: Keep): seq<Item> {
    if items == [] then [] else (if keep(items[0]) then [items[0]] else []) + Filter(items[1..], keep)
  }

  /** Python's `items[from:to]` for bounds that are not negative. */
  function Slice(items: seq<Item>, from: nat, to: nat): seq<Item> {
    if from >= |items| || to <= from then [] else items[from..if to < |items| then to else |items|]
  }

  function Min(a: nat, b: nat): nat {
    if a <= b then a else b
  }

  /** What `search("*", top_k=n)` returns of a fixed ranking. */
  function First(ranking: seq<Item>, n: nat): seq<Item> {
    ranking[..Min(n, |ranking|)]
  }

  function ScanLimit(limit: nat, offset: nat): nat {
    var n := (limit + offset) * 10;
    if n >= 200 then n else 200
  }

  /** The page `list_memories` cuts from its scan. */
  function CutPage(ranking: seq<Item>, limit: nat, offset: nat, keep: Keep): seq<Item> {
    Slice(Filter(First(ranking, ScanLimit(limit, offset)), keep), offset, offset + limit)
  }

  /** The page of the whole ranking. */
  function TruePage(ranking: seq<Item>, limit: nat, offset: nat, keep: Keep): seq<Item> {
    Slice(Filter(ranking, keep), offset, offset + limit)
  }

  function Warned(ranking: seq<Item>, limit: nat, offset: nat): bool {
    |First(ranking, ScanLimit(limit, offset))| >= ScanLimit(limit, offset)
  }

  function KeepOf(key: Option<string>, wanted: Option<string>): Keep {
    (item: Item) => key.Some? && wanted.Some? ==> Matches(item.metadata, key.value, wanted.value)
  }

  method ListMemories(ranking: seq<Item>, limit: nat, offset: nat, key: Option<string>, wanted: Option<string>)
    returns (r: Listing)
    ensures key.Some? && wanted.None? ==> r == MissingValue
    ensures key.None? && wanted.Some? ==> r == MissingKey
    ensures (key.Some? <==> wanted.Some?) ==>
              r == Page(CutPage(ranking, limit, offset, KeepOf(key, wanted)), Warned(ranking, limit, offset))
  {
    if key.None? != wanted.None? {
      return if key.Some? then MissingValue else MissingKey;
    }
    var window := ScanLimit(limit, offset);
    var hits := First(ranking, window);
    var items := hits;
    if key.Some? {
      items := Filter(hits, KeepOf(key, wanted));
    } else {
      FilterOfAll(hits, KeepOf(key, wanted));
    }
    return Page(Slice(items, offset, offset + limit), |hits| >= window);
  }

  lemma {:induction false} FilterOfConcat(a: seq<Item>, b: seq<Item>, keep: Keep)
    ensures Filter(a + b, keep) == Filter(a, keep) + Filter(b, keep)
    decreases |a|
  {
    if a == [] {
      assert a + b == b;
    } else {
      assert (a + b)[1..] == a[1..] + b;
      FilterOfConcat(a[1..], b, keep);
    }
  }

  lemma {:induction false} FilterOfAll(items: seq<Item>, keep: Keep)
    requires forall i :: 0 <= i < |items| ==> keep(items[i])
    ensures Filter(items, keep) == items
    decreases |items|
  {
    if items != [] {
      assert forall i :: 0 <= i < |items[1..]| ==> items[1..][i] == items[i + 1];
      FilterOfAll(items[1..], keep);
    }
  }

  lemma SliceOfPrefix(a: seq<Item>, b: seq<Item>, from: nat, to: nat)
    ensures Slice(a, from, to) <= Slice(a + b, from, to)
  {
  }

  /** A page is always a prefix of the true page: right items, right places, at worst too few. */
  lemma PageIsPrefixOfTruePage(ranking: seq<Item>, limit: nat, offset: nat, keep: Keep)
    ensures CutPage(ranking, limit, offset, keep) <= TruePage(ranking, limit, offset, keep)
  {
    var hits := First(ranking, ScanLimit(limit, offset));
    var rest := ranking[|hits|..];
    assert ranking == hits + rest;
    FilterOfConcat(hits, rest, keep);
    SliceOfPrefix(Filter(hits, keep), Filter(rest, keep), offset, offset + limit);
  }

  /** A page that differs from the true one is warned about: without the warning the scan saw everything. */
  lemma WrongPageIsWarned(ranking: seq<Item>, limit: nat, offset: nat, keep: Keep)
    ensures Warned(ranking, limit, offset) <==> |ranking| >= 200 && |ranking| >= 10 * (limit + offset)
    ensures CutPage(ranking, limit, offset, keep) != TruePage(ranking, limit, offset, keep) ==>
              Warned(ranking, limit, offset)
  {
    if |ranking| < ScanLimit(limit, offset) {
      assert First(ranking, ScanLimit(limit, offset)) == ranking;
    }
  }

  /** The page is wrong exactly when the scan held too few matches and the rest of the ranking holds one. */
  lemma PageIsWrongIff(ranking: seq<Item>, limit: nat, offset: nat, keep: Keep)
    ensures var n := ScanLimit(limit, offset);
            var seen, unseen := Filter(First(ranking, n), keep), Filter(ranking[|First(ranking, n)|..], keep);
            CutPage(ranking, limit, offset, keep) == TruePage(ranking, limit, offset, keep)
            <==> |seen| >= offset + limit || unseen == [] || |seen| + |unseen| <= offset || limit == 0
  {
    var hits := First(ranking, ScanLimit(limit, offset));
    var rest := ranking[|hits|..];
    assert ranking == hits + rest;
    FilterOfConcat(hits, rest, keep);
    SliceGrowsIff(Filter(hits, keep), Filter(rest, keep), offset, offset + limit);
  }

  /** The failing input: the one match stands just past the first scan. */
  lemma MatchPastTheScanIsMissed(miss: Item, hit: Item, keep: Keep)
    requires !keep(miss) && keep(hit)
    ensures var ranking := seq(200, _ => miss) + [hit];
            CutPage(ranking, 1, 0, keep) == [] && TruePage(ranking, 1, 0, keep) == [hit]
  {
    var misses := seq(200, _ => miss);
    var ranking := misses + [hit];
    assert First(ranking, ScanLimit(1, 0)) == misses;
    FilterOfNone(misses, keep);
    FilterOfConcat(misses, [hit], keep);
    FilterOfAll([hit], keep);
  }

  lemma {:induction false} FilterOfNone(items: seq<Item>, keep: Keep)
    requires forall i :: 0 <= i < |items| ==> !keep(items[i])
    ensures Filter(items, keep) == []
    decreases |items|
  {
    if items != [] {
      assert forall i :: 0 <= i < |items[1..]| ==> items[1..][i] == items[i + 1];
      FilterOfNone(items[1..], keep);
    }
  }

  lemma SliceGrowsIff(a: seq<Item>, b: seq<Item>, from: nat, to: nat)
    requires from <= to
    ensures Slice(a, from, to) == Slice(a + b, from, to) <==>
              |a| >= to || b == [] || |a| + |b| <= from || from == to
  {
    if b == [] { assert a + b == a; }
    assert |Slice(a, from, to)| == if from >= |a| || to <= from then 0 else Min(to, |a|) - from;
  }

  // ------------------------------------------------------------------ unfiltered pages tile the ranking

  lemma UnfilteredPageIsExact(ranking: seq<Item>, limit: nat, offset: nat, keep: Keep)
    requires forall i :: 0 <= i < |ranking| ==> keep(ranking[i])
    ensures CutPage(ranking, limit, offset, keep) == Slice(ranking, offset, offset + limit)
  {
    FilterOfAll(First(ranking, ScanLimit(limit, offset)), keep);
  }

  /** The first `pages` pages one after another. */
  function Pages(ranking: seq<Item>, limit: nat, pages: nat, keep: Keep): seq<Item> {
    if pages == 0 then []
    else Pages(ranking, limit, pages - 1, keep) + CutPage(ranking, limit, limit * (pages - 1), keep)
  }

  /** Unfiltered pages repeat nothing and skip nothing. */
  lemma {:induction false} PagesTile(ranking: seq<Item>, limit: nat, pages: nat, keep: Keep)
    requires forall i :: 0 <= i < |ranking| ==> keep(ranking[i])
    ensures Pages(ranking, limit, pages, keep) == First(ranking, limit * pages)
    decreases pages
  {
    hide CutPage;
    if pages > 0 {
      PagesTile(ranking, limit, pages - 1, keep);
      UnfilteredPageIsExact(ranking, limit, limit * (pages - 1), keep);
      assert limit * pages == limit * (pages - 1) + limit;
      FirstThenSlice(ranking, limit * (pages - 1), limit);
    }
  }

  lemma FirstThenSlice(ranking: seq<Item>, from: nat, limit: nat)
    ensures First(ranking, from) + Slice(ranking, from, from + limit) == First(ranking, from + limit)
  {
  }

  // ------------------------------------------------------------------ what a listing holds

  lemma {:induction false} FilterHolds(items: seq<Item>, keep: Keep, x: Item)
    ensures x in Filter(items, keep) <==> x in items && keep(x)
    decreases |items|
  {
    if items != [] {
      FilterHolds(items[1..], keep, x);
      assert items == [items[0]] + items[1..];
    }
  }

  /** A filtered page holds matching items only, at most `limit` of them; and a first page as long as the ranking
      holds every match. */
  lemma ListedItemsMatch(ranking: seq<Item>, limit: nat, offset: nat, key: string, wanted: string)
    ensures var page := CutPage(ranking, limit, offset, KeepOf(Some(key), Some(wanted)));
            |page| <= limit && forall x :: x in page ==> x in ranking && Matches(x.metadata, key, wanted)
    ensures forall i :: 0 <= i < |ranking| && |ranking| <= limit && Matches(ranking[i].metadata, key, wanted)
              ==> ranking[i] in CutPage(ranking, limit, 0, KeepOf(Some(key), Some(wanted)))
  {
    hide Matches;
    var keep := KeepOf(Some(key), Some(wanted));
    var hits := First(ranking, ScanLimit(limit, offset));
    var page := CutPage(ranking, limit, offset, keep);
    forall x | x in page
      ensures x in ranking && Matches(x.metadata, key, wanted)
    {
      assert x in Filter(hits, keep);
      FilterHolds(hits, keep, x);
    }
    if |ranking| <= limit {
      assert First(ranking, ScanLimit(limit, 0)) == ranking;
      FilterIsNoLonger(ranking, keep);
      forall i | 0 <= i < |ranking| && Matches(ranking[i].metadata, key, wanted)
        ensures ranking[i] in CutPage(ranking, limit, 0, keep)
      {
        FilterHolds(ranking, keep, ranking[i]);
      }
    }
  }

  lemma {:induction false} FilterIsNoLonger(items: seq<Item>, keep: Keep)
    ensures |Filter(items, keep)| <= |items|
    decreases |items|
  {
    if items != [] { FilterIsNoLonger(items[1..], keep); }
  }
}

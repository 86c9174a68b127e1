/** The bundle `ingest_code` publishes from the parsed files of a repository. */
module CodeBundle {
  import opened CodeParser
  import opened Wrappers

  /** A collected file; no tree when reading or parsing it failed. */
  datatype SourceFile = SourceFile(path: string, tree: Option<seq<Node>>)

  datatype Ingest = Refused(failed: nat) | NoEntities | TooLarge | Publish(entities: seq<Entity>, edges: seq<Edge>)

  const MAX_FILES := 10_000
  const MAX_BYTES := 64 * 1024 * 1024

  /** What parsing the files in turn accumulates: entities, edges and the number of failures. */
  function Collect(repo: string, files: seq<SourceFile>): (Parsed, nat) {
    if files == [] then (Parsed([], []), 0)
    else
      var (rest, failed) := Collect(repo, files[1..]);
      if files[0].tree.None? then (rest, failed + 1)
      else
        var p := Parse(repo, files[0].path, files[0].tree.value);
        (Parsed(p.entities + rest.entities, p.edges + rest.edges), failed)
  }

  /** The edges that join two of `ids`. */
  function Within(edges: seq<Edge>, ids: set<string>): seq<Edge> {
    if edges == [] then [] else (if Inside(edges[0], ids) then [edges[0]] else []) + Within(edges[1..], ids)
  }

  method ParseAll(repo: string, files: seq<SourceFile>) returns (all: Parsed, failed: nat)
    ensures (all, failed) == Collect(repo, files)
  {
    hide Parse;
    all, failed := Parsed([], []), 0;
    for i := 0 to |files|
      invariant all.entities + Collect(repo, files[i..]).0.entities == Collect(repo, files).0.entities
      invariant all.edges + Collect(repo, files[i..]).0.edges == Collect(repo, files).0.edges
      invariant failed + Collect(repo, files[i..]).1 == Collect(repo, files).1
    {
      assert files[i..][1..] == files[i + 1..];
      if files[i].tree.Some? {
        var result := new ParseResult();
        result.ParseFile(repo, files[i].path, files[i].tree.value);
        all := Parsed(all.entities + result.entities, all.edges + result.edges);
      } else {
        failed := failed + 1;
      }
    }
    assert Collect(repo, files[|files|..]) == (Parsed([], []), 0);
    assert all.entities == Collect(repo, files).0.entities && all.edges == Collect(repo, files).0.edges;
  }

  method KeepWithin(edges: seq<Edge>, ids: set<string>) returns (kept: seq<Edge>)
    ensures kept == Within(edges, ids)
  {
    kept := [];
    for i := 0 to |edges|
      invariant kept + Within(edges[i..], ids) == Within(edges, ids)
    {
      assert edges[i..][1..] == edges[i + 1..];
      if edges[i].source in ids && edges[i].target in ids {
        kept := kept + [edges[i]];
      }
    }
  }

  /** Parses every file, then publishes all of it or nothing. `walkErrors` counts directories that could not be
      listed, `bytes` is the size of the serialized bundle. */
  method IngestCode(repo: string, files: seq<SourceFile>, walkErrors: nat, bytes: (seq<Entity>, seq<Edge>) -> nat)
    returns (r: Ingest)
    ensures var (all, failed) := Collect(repo, files);
            var edges := Within(all.edges, Ids(all.entities));
            r == if walkErrors + failed > 0 then Refused(walkErrors + failed)
                 else if all.entities == [] then NoEntities
                 else if |files| > 10_000 || bytes(all.entities, edges) > 67_108_864 then TooLarge
                 else Publish(all.entities, edges)
  {
    hide Collect, Within, Ids;
    var all, failed := ParseAll(repo, files);
    if walkErrors + failed > 0 {
      return Refused(walkErrors + failed);
    }
    if all.entities == [] {
      return NoEntities;
    }
    var kept := KeepWithin(all.edges, Ids(all.entities));
    if |files| > MAX_FILES || bytes(all.entities, kept) > MAX_BYTES {
      return TooLarge;
    }
    return Publish(all.entities, kept);
  }

  // ------------------------------------------------------------------ what is published

  lemma {:induction false} WithinIsInside(edges: seq<Edge>, ids: set<string>, e: Edge)
    ensures e in Within(edges, ids) <==> e in edges && Inside(e, ids)
  {
    hide Inside;
    if edges != [] {
      WithinIsInside(edges[1..], ids, e);
      assert edges == [edges[0]] + edges[1..];
    }
  }

  /** An edge kind that never leaves `ids` loses nothing to the filter. */
  lemma {:induction false} NothingLost(edges: seq<Edge>, ids: set<string>, kind: EdgeKind)
    requires kind in {DEFINES, TESTS} && Closed(edges, ids)
    ensures Of(Within(edges, ids), kind) == Of(edges, kind)
    decreases |edges|
  {
    hide Inside;
    if edges != [] {
      assert Closed(edges[1..], ids);
      NothingLost(edges[1..], ids, kind);
      OfConcat(if Inside(edges[0], ids) then [edges[0]] else [], Within(edges[1..], ids), kind);
      assert Of([edges[0]], kind) == if edges[0].kind == kind then [edges[0]] else [] by {
        assert [edges[0]][1..] == [];
      }
    }
  }

  lemma ClosedInMore(edges: seq<Edge>, ids: set<string>, more: set<string>)
    requires Closed(edges, ids) && ids <= more
    ensures Closed(edges, more)
  {
  }

  lemma ClosedTogether(a: seq<Edge>, b: seq<Edge>, ids: set<string>)
    requires Closed(a, ids) && Closed(b, ids)
    ensures Closed(a + b, ids)
  {
  }

  lemma IdsOfConcat(a: seq<Entity>, b: seq<Entity>)
    ensures Ids(a + b) == Ids(a) + Ids(b)
  {
    assert forall e :: e in a + b <==> e in a || e in b;
  }

  /** However many files: DEFINES and TESTS edges stay inside, and each file has one DEFINES fewer than entities. */
  lemma {:induction false} CollectedIsClosed(repo: string, files: seq<SourceFile>)
    ensures var (all, failed) := Collect(repo, files);
            Closed(all.edges, Ids(all.entities)) && |Of(all.edges, DEFINES)| + |files| == |all.entities| + failed
    decreases |files|
  {
    hide Parse, Closed;
    if files == [] {
      NoEdgesAreClosed(Ids([]));
    } else {
      CollectedIsClosed(repo, files[1..]);
      if files[0].tree.Some? {
        var p, rest := Parse(repo, files[0].path, files[0].tree.value), Collect(repo, files[1..]).0;
        ParsedFileIsATree(repo, files[0].path, files[0].tree.value);
        IdsOfConcat(p.entities, rest.entities);
        ClosedInMore(p.edges, Ids(p.entities), Ids(p.entities + rest.entities));
        ClosedInMore(rest.edges, Ids(rest.entities), Ids(p.entities + rest.entities));
        ClosedTogether(p.edges, rest.edges, Ids(p.entities + rest.entities));
        OfConcat(p.edges, rest.edges, DEFINES);
      }
    }
  }

  lemma NoEdgesAreClosed(ids: set<string>)
    ensures Closed([], ids)
  {
  }

  /** The published edges are exactly the parsed ones that join two published entities; no DEFINES or TESTS edge is
      dropped, so with every file parsed each still has a tree. */
  lemma PublishedBundleIsClosed(repo: string, files: seq<SourceFile>)
    ensures var (all, failed) := Collect(repo, files);
            var ids := Ids(all.entities);
            var edges := Within(all.edges, ids);
            && (forall e :: e in edges <==> e in all.edges && Inside(e, ids))
            && Of(edges, DEFINES) == Of(all.edges, DEFINES) && Of(edges, TESTS) == Of(all.edges, TESTS)
            && |Of(edges, DEFINES)| + |files| == |all.entities| + failed
  {
    hide Collect, Closed, Inside;
    var all := Collect(repo, files).0;
    var ids := Ids(all.entities);
    CollectedIsClosed(repo, files);
    NothingLost(all.edges, ids, DEFINES);
    NothingLost(all.edges, ids, TESTS);
    forall e
      ensures e in Within(all.edges, ids) <==> e in all.edges && Inside(e, ids)
    {
      WithinIsInside(all.edges, ids, e);
    }
  }
}

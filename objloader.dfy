/** The mesh loader: a subset of the Wavefront OBJ text format, read one
    already-tokenised line at a time. Vertex lines append a point; face lines
    join their indices cyclically into edges, and an edge whose unordered
    index pair was already seen in this load is dropped. */
module ObjLoader {
  import opened Geometry

  /** An edge as stored: the two vertex indices in the orientation of the face
      that produced it. Indices are not checked against the vertex count and
      may be negative. */
  datatype Edge = Edge(a: int, b: int)

  /** One line of mesh text after tokenisation: `v x y z`, `f i1 i2 ... ik`
      (the leading integer of each token, still 1-based), or anything else. */
  datatype ObjLine =
    | VertexLine(x: real, y: real, z: real)
    | FaceLine(indices: seq<int>)
    | OtherLine

  // ---------------------------------------------------------------------------
  // Canonical keys and deduplication
  // ---------------------------------------------------------------------------

  /** The canonical key of an edge: its unordered pair, smaller index first. */
  function Key(e: Edge): (k: Edge)
    ensures k.a <= k.b
    ensures k == e || k == Edge(e.b, e.a)
  {
    if e.a < e.b then e else Edge(e.b, e.a)
  }

  /** Two edges share a key exactly when they join the same two indices. */
  lemma KeyIsUnorderedPair(e1: Edge, e2: Edge)
    ensures Key(e1) == Key(e2) <==> (e1 == e2 || e1 == Edge(e2.b, e2.a))
  {}

  /** The keys of all edges of a list: the contents of the loader's edge set. */
  function KeySet(es: seq<Edge>): set<Edge>
  {
    set i | 0 <= i < |es| :: Key(es[i])
  }

  /** No two entries of the list join the same unordered pair. */
  predicate Unique(es: seq<Edge>)
  {
    forall i, j :: 0 <= i < j < |es| ==> Key(es[i]) != Key(es[j])
  }

  lemma KeySetSnoc(es: seq<Edge>, e: Edge)
    ensures KeySet(es + [e]) == KeySet(es) + {Key(e)}
  {
    var es' := es + [e];
    forall k | k in KeySet(es') ensures k in KeySet(es) + {Key(e)} {
      var i :| 0 <= i < |es'| && k == Key(es'[i]);
      if i < |es| { assert es'[i] == es[i]; }
    }
    forall k | k in KeySet(es) + {Key(e)} ensures k in KeySet(es') {
      if k == Key(e) {
        assert es'[|es|] == e;
      } else {
        var i :| 0 <= i < |es| && k == Key(es[i]);
        assert es'[i] == es[i];
      }
    }
  }

  /** The loader's `addEdge`: skip the edge when its key is already present,
      otherwise append it in the orientation given. */
  function AddEdge(es: seq<Edge>, e: Edge): seq<Edge>
  {
    if Key(e) in KeySet(es) then es else es + [e]
  }

  /** AddEdge adds the edge's key to the key set; it keeps the list as a
      prefix and appends the edge as given exactly when its key is new, so a
      list without repeated pairs stays so. */
  lemma AddEdgeSpec(es: seq<Edge>, e: Edge)
    ensures var r := AddEdge(es, e);
      && KeySet(r) == KeySet(es) + {Key(e)}
      && (Unique(es) ==> Unique(r))
      && r[..|es|] == es
      && (Key(e) in KeySet(es) <==> |r| == |es|)
      && (Key(e) !in KeySet(es) ==> |r| == |es| + 1 && r[|es|] == e)
  {
    KeySetSnoc(es, e);
    if Key(e) !in KeySet(es) {
      var r := es + [e];
      assert r[..|es|] == es;
      forall i, j | 0 <= i < j < |r| && Unique(es) ensures Key(r[i]) != Key(r[j]) {
        if j == |es| {
          assert r[i] == es[i];
        } else {
          assert r[i] == es[i] && r[j] == es[j];
        }
      }
    } else {
      assert es[..|es|] == es;
    }
  }

  /** The edges kept from a sequence of candidate edges, fed to AddEdge in order. */
  function Dedup(raw: seq<Edge>): seq<Edge>
    decreases |raw|
  {
    if |raw| == 0 then []
    else AddEdge(Dedup(raw[..|raw| - 1]), raw[|raw| - 1])
  }

  lemma DedupSnoc(raw: seq<Edge>, e: Edge)
    ensures Dedup(raw + [e]) == AddEdge(Dedup(raw), e)
  {
    assert (raw + [e])[..|raw|] == raw;
  }

  /** The kept list has no repeated unordered pair and holds every key of
      the candidates. */
  lemma {:induction false} DedupKeys(raw: seq<Edge>)
    ensures Unique(Dedup(raw))
    ensures KeySet(Dedup(raw)) == KeySet(raw)
    decreases |raw|
  {
    if |raw| == 0 {
      assert KeySet(raw) == {};
    } else {
      var n := |raw| - 1;
      DedupKeys(raw[..n]);
      assert raw == raw[..n] + [raw[n]];
      KeySetSnoc(raw[..n], raw[n]);
      AddEdgeSpec(Dedup(raw[..n]), raw[n]);
    }
  }

  /** `raw[k]` is the first candidate with its key. */
  predicate IsFirstAt(raw: seq<Edge>, k: int)
    requires 0 <= k < |raw|
  {
    forall j :: 0 <= j < k ==> Key(raw[j]) != Key(raw[k])
  }

  /** Being first among the candidates does not depend on what comes later. */
  lemma IsFirstAtPrefix(raw: seq<Edge>, n: int, k: int)
    requires 0 <= k < n <= |raw|
    ensures IsFirstAt(raw[..n], k) <==> IsFirstAt(raw, k)
  {
    assert forall j :: 0 <= j <= k ==> raw[..n][j] == raw[j];
  }

  /** Every kept edge is the first candidate with its key, in that candidate's
      orientation. */
  lemma {:induction false} DedupKeepsOnlyFirstOccurrences(raw: seq<Edge>)
    ensures forall i :: 0 <= i < |Dedup(raw)| ==>
      exists k :: 0 <= k < |raw| && raw[k] == Dedup(raw)[i] && IsFirstAt(raw, k)
    decreases |raw|
  {
    if |raw| == 0 {
      assert Dedup(raw) == [];
    } else {
      var n := |raw| - 1;
      var pre, e := raw[..n], raw[n];
      DedupKeepsOnlyFirstOccurrences(pre);
      DedupKeys(pre);
      var rp := Dedup(pre);
      var r := Dedup(raw);
      assert r == AddEdge(rp, e);
      AddEdgeSpec(rp, e);
      forall i | 0 <= i < |r|
        ensures exists k :: 0 <= k < |raw| && raw[k] == r[i] && IsFirstAt(raw, k)
      {
        if i < |rp| {
          var k :| 0 <= k < |pre| && pre[k] == rp[i] && IsFirstAt(pre, k);
          IsFirstAtPrefix(raw, n, k);
          assert raw[k] == r[i];
        } else {
          assert Key(e) !in KeySet(rp) && r[i] == e;
          assert IsFirstAt(raw, n) by {
            forall j | 0 <= j < n ensures Key(raw[j]) != Key(raw[n]) {
              assert raw[j] == pre[j] && Key(pre[j]) in KeySet(pre);
            }
          }
        }
      }
    }
  }

  /** What AddEdge keeps stays kept. */
  lemma DedupGrows(raw: seq<Edge>, x: Edge)
    requires |raw| > 0 && x in Dedup(raw[..|raw| - 1])
    ensures x in Dedup(raw)
  {
    var rp := Dedup(raw[..|raw| - 1]);
    var r := AddEdge(rp, raw[|raw| - 1]);
    AddEdgeSpec(rp, raw[|raw| - 1]);
    assert Dedup(raw) == r;
    var i :| 0 <= i < |rp| && rp[i] == x;
    assert r[..|rp|][i] == x;
  }

  /** The first candidate with a key is not in the key set of those before it. */
  lemma FirstKeyFresh(raw: seq<Edge>, k: int)
    requires 0 <= k < |raw| && IsFirstAt(raw, k)
    ensures Key(raw[k]) !in KeySet(raw[..k])
  {
    assert forall j :: 0 <= j < k ==> raw[..k][j] == raw[j];
  }

  /** A last candidate with a fresh key is kept. */
  lemma DedupKeepsFreshLast(raw: seq<Edge>)
    requires |raw| > 0 && IsFirstAt(raw, |raw| - 1)
    ensures raw[|raw| - 1] in Dedup(raw)
  {
    var n := |raw| - 1;
    var pre, e := raw[..n], raw[n];
    FirstKeyFresh(raw, n);
    DedupKeys(pre);
    var rp := Dedup(pre);
    assert Key(e) !in KeySet(rp);
    var r := AddEdge(rp, e);
    AddEdgeSpec(rp, e);
    assert r[|rp|] == e;
    assert Dedup(raw) == r;
  }

  /** The first candidate with each key is kept, in its own orientation. */
  lemma {:induction false} DedupKeepsEveryFirstOccurrence(raw: seq<Edge>)
    ensures forall k :: 0 <= k < |raw| && IsFirstAt(raw, k) ==> raw[k] in Dedup(raw)
    decreases |raw|
  {
    if |raw| > 0 {
      var n := |raw| - 1;
      var pre := raw[..n];
      DedupKeepsEveryFirstOccurrence(pre);
      forall k | 0 <= k < |raw| && IsFirstAt(raw, k) ensures raw[k] in Dedup(raw) {
        if k < n {
          IsFirstAtPrefix(raw, n, k);
          assert pre[k] == raw[k];
          DedupGrows(raw, raw[k]);
        } else {
          DedupKeepsFreshLast(raw);
        }
      }
    }
  }

  /** Edges kept early stay at the front: deduplicating a prefix of the
      candidates gives a prefix of the result, so kept edges appear in the order
      of their first occurrences. */
  lemma {:induction false} DedupPrefix(raw: seq<Edge>, m: nat)
    requires m <= |raw|
    ensures |Dedup(raw[..m])| <= |Dedup(raw)|
    ensures Dedup(raw[..m]) == Dedup(raw)[..|Dedup(raw[..m])|]
    decreases |raw| - m
  {
    if m < |raw| {
      DedupPrefix(raw, m + 1);
      var pre := raw[..m + 1];
      assert pre[..m] == raw[..m];
      assert Dedup(pre) == AddEdge(Dedup(raw[..m]), raw[m]);
      AddEdgeSpec(Dedup(raw[..m]), raw[m]);
    } else {
      assert raw[..m] == raw;
    }
  }

  // ---------------------------------------------------------------------------
  // Faces
  // ---------------------------------------------------------------------------

  /** `parseInt(token) - 1`: the 1-based indices of a face line made 0-based. */
  function ZeroBased(indices: seq<int>): (r: seq<int>)
    ensures |r| == |indices|
    ensures forall i :: 0 <= i < |r| ==> r[i] + 1 == indices[i]
  {
    seq(|indices|, i requires 0 <= i < |indices| => indices[i] - 1)
  }

  /** The position after `i` on a cycle of length `n`. */
  function Next(i: int, n: int): int
    requires 0 <= i < n
  {
    if i + 1 < n then i + 1 else 0
  }

  /** Next is the loader's `(i + 1) % n`. */
  lemma NextIsMod(i: int, n: int)
    requires 0 <= i < n
    ensures Next(i, n) == (i + 1) % n
  {}

  /** The candidate edges of one face: each index joined to the next, and the
      last joined back to the first. */
  function FaceEdges(ix: seq<int>): (r: seq<Edge>)
    ensures |r| == |ix|
    ensures forall i {:trigger r[i]} :: 0 <= i < |ix| - 1 ==> r[i] == Edge(ix[i], ix[i + 1])
    ensures |ix| > 0 ==> r[|ix| - 1] == Edge(ix[|ix| - 1], ix[0])
  {
    if |ix| > 0 then seq(|ix|, i requires 0 <= i < |ix| => Edge(ix[i], ix[Next(i, |ix|)]))
    else []
  }

  /** The candidate edge a face line gives at position `i`: its `i`-th and
      next index, made 0-based. */
  function FacePair(l: ObjLine, i: int): Edge
    requires l.FaceLine? && 0 <= i < |l.indices|
  {
    Edge(l.indices[i] - 1, l.indices[Next(i, |l.indices|)] - 1)
  }

  lemma FaceEdgesAt(ix: seq<int>, i: int)
    requires 0 <= i < |ix|
    ensures FaceEdges(ix)[i] == Edge(ix[i], ix[(i + 1) % |ix|])
  {
    NextIsMod(i, |ix|);
  }

  /** Position `i` of a face line's candidate edges is its FacePair. */
  lemma LineEdgesAt(l: ObjLine, i: int)
    requires l.FaceLine? && 0 <= i < |l.indices|
    ensures LineEdges(l)[i] == FacePair(l, i)
  {
    var zb := ZeroBased(l.indices);
    FaceEdgesAt(zb, i);
  }

  /** A face with a single index yields the self-edge on that vertex. */
  lemma SingleIndexFaceIsSelfEdge(i1: int)
    ensures FaceEdges(ZeroBased([i1])) == [Edge(i1 - 1, i1 - 1)]
  {}

  /** The candidate edges a line contributes. */
  function LineEdges(l: ObjLine): seq<Edge>
  {
    if l.FaceLine? then FaceEdges(ZeroBased(l.indices)) else []
  }

  /** All candidate edges of the text, line by line. */
  function RawEdges(lines: seq<ObjLine>): seq<Edge>
    decreases |lines|
  {
    if |lines| == 0 then []
    else RawEdges(lines[..|lines| - 1]) + LineEdges(lines[|lines| - 1])
  }

  lemma RawEdgesSnoc(lines: seq<ObjLine>, l: ObjLine)
    ensures RawEdges(lines + [l]) == RawEdges(lines) + LineEdges(l)
    ensures !l.FaceLine? ==> RawEdges(lines + [l]) == RawEdges(lines)
  {
    assert (lines + [l])[..|lines|] == lines;
    assert RawEdges(lines) + [] == RawEdges(lines);
  }

  /** A candidate edge comes from some line of the text. */
  lemma {:induction false} RawEdgeHasLine(lines: seq<ObjLine>, e: Edge)
    requires e in RawEdges(lines)
    ensures exists k :: 0 <= k < |lines| && e in LineEdges(lines[k])
    decreases |lines|
  {
    var n := |lines| - 1;
    var pre := lines[..n];
    assert RawEdges(lines) == RawEdges(pre) + LineEdges(lines[n]);
    if e in RawEdges(pre) {
      RawEdgeHasLine(pre, e);
      var k :| 0 <= k < n && e in LineEdges(pre[k]);
      assert pre[k] == lines[k];
    } else {
      assert e in LineEdges(lines[n]);
    }
  }

  /** The candidates of the first m lines come first among the candidates
      of the whole text. */
  lemma {:induction false} RawEdgesPrefix(lines: seq<ObjLine>, m: nat)
    requires m <= |lines|
    ensures RawEdges(lines[..m]) <= RawEdges(lines)
    decreases |lines| - m
  {
    if m < |lines| {
      RawEdgesPrefix(lines, m + 1);
      var longer := lines[..m + 1];
      assert longer[..m] == lines[..m];
      assert RawEdges(longer) == RawEdges(lines[..m]) + LineEdges(lines[m]);
    } else {
      assert lines[..m] == lines;
    }
  }

  lemma RawEdgesUpTo(lines: seq<ObjLine>, k: nat)
    requires k < |lines|
    ensures RawEdges(lines[..k + 1]) == RawEdges(lines[..k]) + LineEdges(lines[k])
    ensures !lines[k].FaceLine? ==> RawEdges(lines[..k + 1]) == RawEdges(lines[..k])
  {
    assert lines[..k + 1][..k] == lines[..k];
    assert RawEdges(lines[..k]) + [] == RawEdges(lines[..k]);
  }

  lemma InPrefix<T>(a: seq<T>, b: seq<T>, x: T)
    requires a <= b && x in a
    ensures x in b
  {
    var j :| 0 <= j < |a| && a[j] == x;
    assert b[j] == x;
  }

  /** Every line's edges are candidates. */
  lemma LineEdgeIsRaw(lines: seq<ObjLine>, k: nat, e: Edge)
    requires k < |lines| && e in LineEdges(lines[k])
    ensures e in RawEdges(lines)
  {
    RawEdgesUpTo(lines, k);
    RawEdgesPrefix(lines, k + 1);
    InPrefix(RawEdges(lines[..k + 1]), RawEdges(lines), e);
  }

  /** The candidate edges are exactly the edges of the lines. */
  lemma RawEdgesFromLines(lines: seq<ObjLine>, e: Edge)
    ensures e in RawEdges(lines) <==> exists k :: 0 <= k < |lines| && e in LineEdges(lines[k])
  {
    if e in RawEdges(lines) {
      RawEdgeHasLine(lines, e);
    }
    if exists k :: 0 <= k < |lines| && e in LineEdges(lines[k]) {
      var k :| 0 <= k < |lines| && e in LineEdges(lines[k]);
      LineEdgeIsRaw(lines, k, e);
    }
  }

  // ---------------------------------------------------------------------------
  // A whole load
  // ---------------------------------------------------------------------------

  /** The points of the `v` lines, in order. */
  function ParsedVertices(lines: seq<ObjLine>): seq<Vec3>
    decreases |lines|
  {
    if |lines| == 0 then []
    else
      var l := lines[|lines| - 1];
      ParsedVertices(lines[..|lines| - 1]) + (if l.VertexLine? then [Vec3(l.x, l.y, l.z)] else [])
  }

  /** The edges a load keeps. */
  function ParsedEdges(lines: seq<ObjLine>): seq<Edge>
  {
    Dedup(RawEdges(lines))
  }

  lemma ParsedVerticesSnoc(lines: seq<ObjLine>, l: ObjLine)
    ensures ParsedVertices(lines + [l]) ==
      ParsedVertices(lines) + (if l.VertexLine? then [Vec3(l.x, l.y, l.z)] else [])
  {
    assert (lines + [l])[..|lines|] == lines;
  }

  lemma ParsedVerticesUpTo(lines: seq<ObjLine>, k: nat)
    requires k < |lines|
    ensures var l := lines[k];
      ParsedVertices(lines[..k + 1]) == ParsedVertices(lines[..k]) + (if l.VertexLine? then [Vec3(l.x, l.y, l.z)] else [])
  {
    assert lines[..k + 1][..k] == lines[..k];
  }

  /** A load reads no vertex exactly when the text has no `v` line; face lines
      alone do not count. */
  lemma {:induction false} NoVertexWithoutVertexLine(lines: seq<ObjLine>)
    ensures |ParsedVertices(lines)| == 0 <==> forall k :: 0 <= k < |lines| ==> !lines[k].VertexLine?
    decreases |lines|
  {
    if |lines| > 0 {
      var n := |lines| - 1;
      NoVertexWithoutVertexLine(lines[..n]);
      assert forall k :: 0 <= k < n ==> lines[..n][k] == lines[k];
    }
  }

  /** Each vertex read comes from a `v` line, and every `v` line gives one. */
  lemma {:induction false} ParsedVerticesFromLines(lines: seq<ObjLine>)
    ensures forall k :: 0 <= k < |lines| && lines[k].VertexLine? ==>
      Vec3(lines[k].x, lines[k].y, lines[k].z) in ParsedVertices(lines)
    ensures forall v :: v in ParsedVertices(lines) ==>
      exists k :: 0 <= k < |lines| && lines[k] == VertexLine(v.x, v.y, v.z)
    decreases |lines|
  {
    if |lines| > 0 {
      var n := |lines| - 1;
      ParsedVerticesFromLines(lines[..n]);
      assert forall k :: 0 <= k < n ==> lines[..n][k] == lines[k];
    }
  }

  /** The number of `v` lines. */
  function VertexLineCount(lines: seq<ObjLine>): nat
    decreases |lines|
  {
    if |lines| == 0 then 0
    else VertexLineCount(lines[..|lines| - 1]) + (if lines[|lines| - 1].VertexLine? then 1 else 0)
  }

  /** A load reads one vertex per `v` line. */
  lemma {:induction false} ParsedVertexCount(lines: seq<ObjLine>)
    ensures |ParsedVertices(lines)| == VertexLineCount(lines)
    decreases |lines|
  {
    if |lines| > 0 {
      ParsedVertexCount(lines[..|lines| - 1]);
    }
  }

  /** The `v` line with j `v` lines before it gives vertex j, which is the
      vertex a face index of j + 1 refers to. */
  lemma {:induction false} ParsedVertexPositions(lines: seq<ObjLine>)
    ensures forall k :: 0 <= k < |lines| && lines[k].VertexLine? ==>
      VertexLineCount(lines[..k]) < |ParsedVertices(lines)| &&
      ParsedVertices(lines)[VertexLineCount(lines[..k])] == Vec3(lines[k].x, lines[k].y, lines[k].z)
    decreases |lines|
  {
    if |lines| > 0 {
      var n := |lines| - 1;
      var prefix := lines[..n];
      ParsedVertexPositions(prefix);
      ParsedVertexCount(prefix);
      ParsedVertexCount(lines);
      assert ParsedVertices(lines)[..|ParsedVertices(prefix)|] == ParsedVertices(prefix);
      forall k | 0 <= k < |lines| && lines[k].VertexLine?
        ensures VertexLineCount(lines[..k]) < |ParsedVertices(lines)| &&
          ParsedVertices(lines)[VertexLineCount(lines[..k])] == Vec3(lines[k].x, lines[k].y, lines[k].z)
      {
        if k < n {
          assert prefix[..k] == lines[..k];
          assert prefix[k] == lines[k];
        } else {
          assert lines[..k] == prefix;
        }
      }
    }
  }

  /** The kept edges are exactly the unordered pairs of consecutive 0-based
      indices of the faces, last joined back to first: every such pair has a
      kept edge, and every kept edge is such a pair in the orientation of the
      face that first produced it. */
  lemma ParsedEdgesAreFacePairs(lines: seq<ObjLine>)
    ensures forall k, i :: 0 <= k < |lines| && lines[k].FaceLine? && 0 <= i < |lines[k].indices| ==>
      Key(FacePair(lines[k], i)) in KeySet(ParsedEdges(lines))
    ensures forall e :: e in ParsedEdges(lines) ==>
              exists k, i ::
                0 <= k < |lines| && lines[k].FaceLine? && 0 <= i < |lines[k].indices| &&
                e == FacePair(lines[k], i)
  {
    var raw := RawEdges(lines);
    var r := ParsedEdges(lines);
    DedupKeys(raw);
    forall k, i | 0 <= k < |lines| && lines[k].FaceLine? && 0 <= i < |lines[k].indices|
      ensures Key(FacePair(lines[k], i)) in KeySet(r)
    {
      var e := FacePair(lines[k], i);
      LineEdgesAt(lines[k], i);
      RawEdgesFromLines(lines, e);
      var j :| 0 <= j < |raw| && raw[j] == e;
      assert Key(e) in KeySet(raw);
    }
    DedupKeepsOnlyFirstOccurrences(raw);
    forall e | e in r
      ensures exists k, i ::
                0 <= k < |lines| && lines[k].FaceLine? && 0 <= i < |lines[k].indices| &&
                e == FacePair(lines[k], i)
    {
      var m :| 0 <= m < |r| && r[m] == e;
      var j :| 0 <= j < |raw| && raw[j] == r[m] && IsFirstAt(raw, j);
      RawEdgesFromLines(lines, e);
      var k :| 0 <= k < |lines| && e in LineEdges(lines[k]);
      var i :| 0 <= i < |LineEdges(lines[k])| && LineEdges(lines[k])[i] == e;
      assert lines[k].FaceLine?;
      LineEdgesAt(lines[k], i);
    }
  }

  // ---------------------------------------------------------------------------
  // The scan of `parseOBJ`
  // ---------------------------------------------------------------------------

  lemma SnocSlice<T>(done: seq<T>, f: seq<T>, i: int)
    requires 0 <= i < |f|
    ensures done + f[..i + 1] == (done + f[..i]) + [f[i]]
  {
    assert f[..i + 1] == f[..i] + [f[i]];
  }

  /** The face branch of `parseOBJ`'s line loop: walk the 0-based indices
      cyclically and call `addEdge` on each consecutive pair. `edgeSet` holds the
      keys of `edges`, standing for the source's string-keyed Set. */
  method AddFaceEdges(indices: seq<int>, edges: seq<Edge>, edgeSet: set<Edge>, ghost done: seq<Edge>)
    returns (edges': seq<Edge>, edgeSet': set<Edge>)
    requires edges == Dedup(done) && edgeSet == KeySet(edges)
    ensures edges' == Dedup(done + FaceEdges(indices))
    ensures edgeSet' == KeySet(edges')
  {
    edges', edgeSet' := edges, edgeSet;
    ghost var face := FaceEdges(indices);
    assert done + face[..0] == done;
    var i := 0;
    while i < |indices|
      invariant 0 <= i <= |indices|
      invariant edges' == Dedup(done + face[..i])
      invariant edgeSet' == KeySet(edges')
    {
      var e := Edge(indices[i], indices[(i + 1) % |indices|]);
      FaceEdgesAt(indices, i);
      SnocSlice(done, face, i);
      DedupSnoc(done + face[..i], e);
      var key := Key(e);
      KeySetSnoc(edges', e);
      if key !in edgeSet' {
        edgeSet' := edgeSet' + {key};
        edges' := edges' + [e];
      }
      i := i + 1;
    }
    assert face[..i] == face;
  }

  /** The line loop of `parseOBJ`: builds the new vertex list and the new edge
      list. */
  method ScanLines(lines: seq<ObjLine>) returns (newVertices: seq<Vec3>, newEdges: seq<Edge>)
    ensures newVertices == ParsedVertices(lines)
    ensures newEdges == ParsedEdges(lines)
  {
    newVertices, newEdges := [], [];
    var edgeSet: set<Edge> := {};
    var k := 0;
    while k < |lines|
      invariant 0 <= k <= |lines|
      invariant newVertices == ParsedVertices(lines[..k])
      invariant newEdges == Dedup(RawEdges(lines[..k]))
      invariant edgeSet == KeySet(newEdges)
    {
      var line := lines[k];
      ParsedVerticesUpTo(lines, k);
      RawEdgesUpTo(lines, k);
      if line.VertexLine? {
        newVertices := newVertices + [Vec3(line.x, line.y, line.z)];
      } else if line.FaceLine? {
        var indices := ZeroBased(line.indices);
        newEdges, edgeSet := AddFaceEdges(indices, newEdges, edgeSet, RawEdges(lines[..k]));
      }
      k := k + 1;
    }
    assert lines[..k] == lines;
  }

  // ---------------------------------------------------------------------------
  // Worked examples
  // ---------------------------------------------------------------------------

  /** A list with no repeated unordered pair passes through unchanged. */
  lemma {:induction false} DedupOfUnique(raw: seq<Edge>)
    requires Unique(raw)
    ensures Dedup(raw) == raw
    decreases |raw|
  {
    if |raw| > 0 {
      var n := |raw| - 1;
      var pre := raw[..n];
      assert Unique(pre);
      DedupOfUnique(pre);
      assert Key(raw[n]) !in KeySet(pre) by {
        forall j | 0 <= j < n ensures Key(pre[j]) != Key(raw[n]) {
          assert pre[j] == raw[j];
        }
      }
      assert pre + [raw[n]] == raw;
    }
  }

  /** Deduplicating twice keeps what deduplicating once kept. */
  lemma DedupIdempotent(raw: seq<Edge>)
    ensures Dedup(Dedup(raw)) == Dedup(raw)
  {
    DedupKeys(raw);
    DedupOfUnique(Dedup(raw));
  }

  lemma TriangleFace(i1: int, i2: int, i3: int)
    ensures LineEdges(FaceLine([i1, i2, i3])) == [Edge(i1 - 1, i2 - 1), Edge(i2 - 1, i3 - 1), Edge(i3 - 1, i1 - 1)]
  {
    assert ZeroBased([i1, i2, i3]) == [i1 - 1, i2 - 1, i3 - 1];
  }

  lemma RawEdgesOfVertexLines(v0: ObjLine, v1: ObjLine, v2: ObjLine)
    requires v0.VertexLine? && v1.VertexLine? && v2.VertexLine?
    ensures RawEdges([v0, v1, v2]) == [] && |ParsedVertices([v0, v1, v2])| == 3
  {
    RawEdgesOfOneLine(v0);
    assert [v0][..0] == [];
    assert |ParsedVertices([v0])| == 1;
    ParsedVerticesSnoc([v0], v1); RawEdgesSnoc([v0], v1);
    assert [v0] + [v1] == [v0, v1];
    ParsedVerticesSnoc([v0, v1], v2); RawEdgesSnoc([v0, v1], v2);
    assert [v0, v1] + [v2] == [v0, v1, v2];
  }

  lemma UniqueTriple(a: Edge, b: Edge, c: Edge)
    requires Key(a) != Key(b) && Key(a) != Key(c) && Key(b) != Key(c)
    ensures Unique([a, b, c])
  {
    var es := [a, b, c];
    forall i, j | 0 <= i < j < 3 ensures Key(es[i]) != Key(es[j]) {
      if i == 0 && j == 1 {
      } else if i == 0 {
        assert j == 2;
      } else {
        assert i == 1 && j == 2;
      }
    }
  }

  /** A triangle: any three vertex lines and the face 1 2 3 give three
      vertices and three edges, the closing one kept as (2, 0), the way the
      face walks it. */
  lemma TriangleLoad(v0: ObjLine, v1: ObjLine, v2: ObjLine, f: ObjLine)
    requires v0.VertexLine? && v1.VertexLine? && v2.VertexLine?
    requires f == FaceLine([1, 2, 3])
    ensures |ParsedVertices([v0, v1, v2, f])| == 3
    ensures ParsedEdges([v0, v1, v2, f]) == [Edge(0, 1), Edge(1, 2), Edge(2, 0)]
  {
    RawEdgesOfVertexLines(v0, v1, v2);
    ParsedVerticesSnoc([v0, v1, v2], f);
    RawEdgesSnoc([v0, v1, v2], f);
    assert [v0, v1, v2] + [f] == [v0, v1, v2, f];
    TriangleFace(1, 2, 3);
    var raw := [Edge(0, 1), Edge(1, 2), Edge(2, 0)];
    assert RawEdges([v0, v1, v2, f]) == raw;
    UniqueTriple(Edge(0, 1), Edge(1, 2), Edge(2, 0));
    DedupOfUnique(raw);
  }

  lemma RawEdgesOfTwoFaces(f1: ObjLine, f2: ObjLine)
    requires f1.FaceLine? && f2.FaceLine?
    ensures RawEdges([f1, f2]) == LineEdges(f1) + LineEdges(f2)
  {
    RawEdgesOfOneLine(f1);
    RawEdgesSnoc([f1], f2);
    assert [f1] + [f2] == [f1, f2];
  }

  lemma RawEdgesOfOneLine(l: ObjLine)
    ensures RawEdges([l]) == LineEdges(l)
  {
    assert [l][..0] == [];
    assert RawEdges([l]) == [] + LineEdges(l);
  }

  /** Two triangles sharing a side: the second face walks the shared side as
      (2, 1), which is dropped in favour of the (1, 2) of the first face. */
  lemma SharedSideKeptOnce(f1: ObjLine, f2: ObjLine)
    requires f1 == FaceLine([1, 2, 3]) && f2 == FaceLine([3, 2, 4])
    ensures ParsedEdges([f1, f2]) == [Edge(0, 1), Edge(1, 2), Edge(2, 0), Edge(1, 3), Edge(3, 2)]
  {
    RawEdgesOfTwoFaces(f1, f2);
    TriangleFace(1, 2, 3);
    TriangleFace(3, 2, 4);
    SharedSideDedup(RawEdges([f1, f2]));
  }

  lemma SharedSideDedup(raw: seq<Edge>)
    requires raw == [Edge(0, 1), Edge(1, 2), Edge(2, 0), Edge(2, 1), Edge(1, 3), Edge(3, 2)]
    ensures Dedup(raw) == [Edge(0, 1), Edge(1, 2), Edge(2, 0), Edge(1, 3), Edge(3, 2)]
  {
    var first, second := raw[..3], raw[3..];
    assert raw == first + second;
    UniqueTriple(first[0], first[1], first[2]);
    DedupOfUnique(first);
    SharedSideSteps(first, second);
  }

  lemma TriangleKeys(first: seq<Edge>)
    requires first == [Edge(0, 1), Edge(1, 2), Edge(2, 0)]
    ensures KeySet(first) == {Edge(0, 1), Edge(1, 2), Edge(0, 2)}
  {
    var p0: seq<Edge> := [];
    KeySetSnoc(p0, first[0]);
    assert p0 + [first[0]] == first[..1];
    KeySetSnoc(first[..1], first[1]);
    assert first[..1] + [first[1]] == first[..2];
    KeySetSnoc(first[..2], first[2]);
    assert first[..2] + [first[2]] == first;
  }

  lemma DedupStepKnown(raw: seq<Edge>, e: Edge)
    requires Key(e) in KeySet(Dedup(raw))
    ensures Dedup(raw + [e]) == Dedup(raw)
  {
    DedupSnoc(raw, e);
  }

  lemma DedupStepFresh(raw: seq<Edge>, e: Edge)
    requires Key(e) !in KeySet(Dedup(raw))
    ensures Dedup(raw + [e]) == Dedup(raw) + [e]
  {
    DedupSnoc(raw, e);
  }

  lemma SharedSideSteps(first: seq<Edge>, second: seq<Edge>)
    requires first == [Edge(0, 1), Edge(1, 2), Edge(2, 0)] && Dedup(first) == first
    requires second == [Edge(2, 1), Edge(1, 3), Edge(3, 2)]
    ensures Dedup(first + second) == first + [second[1], second[2]]
  {
    var e3, e4, e5 := second[0], second[1], second[2];
    var s4 := first + [e3] + [e4];
    assert s4 + [e5] == first + second;
    SharedSideFirstSteps(first, e3, e4);
    DedupStepFresh(s4, e5);
    assert first + [e4] + [e5] == first + [e4, e5];
  }

  /** The reversed shared side is dropped; the next side is kept. */
  lemma SharedSideFirstSteps(first: seq<Edge>, e3: Edge, e4: Edge)
    requires first == [Edge(0, 1), Edge(1, 2), Edge(2, 0)] && Dedup(first) == first
    requires e3 == Edge(2, 1) && e4 == Edge(1, 3)
    ensures Dedup(first + [e3] + [e4]) == first + [e4]
    ensures Key(Edge(3, 2)) !in KeySet(first + [e4])
  {
    var s3 := first + [e3];
    TriangleKeys(first);
    assert Key(e3) == first[1];
    DedupStepKnown(first, e3);
    DedupStepFresh(s3, e4);
    KeySetSnoc(first, e4);
  }
}

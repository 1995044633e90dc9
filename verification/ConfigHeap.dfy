/**
 The in-place merge of configuration documents (pkg/config/merge.go). Decoded
 maps are shared mutable objects: merging writes into the maps of the first
 document and hangs sub-maps of later documents below them, where still later
 documents write into them.
 */
module ConfigHeap {
  import opened Results
  import T = ConfigTree

  datatype Value = Nil | Text(text: string) | Ref(node: MapNode)

  class MapNode {
    var entries: map<string, Value>
    ghost var repr: set<MapNode>  // every map reachable from this one

    /** The maps below this one form a tree: no cycle and no sharing. */
    ghost predicate Valid()
      reads this, repr
      decreases repr
    {
      && this in repr
      && (forall k | k in entries && entries[k].Ref? ::
            && entries[k].node in repr
            && entries[k].node.repr <= repr - {this}
            && entries[k].node.Valid())
      && (forall j, k | j in entries && k in entries && j != k && entries[j].Ref? && entries[k].Ref? ::
            entries[j].node.repr !! entries[k].node.repr)
    }

    ghost function Meaning(): (t: T.Tree)
      requires Valid()
      reads this, repr
      ensures t.Map?
      decreases repr
    {
      T.Map(map k | k in entries ::
              match entries[k]
              case Nil => T.Null
              case Text(text) => T.Scalar(text)
              case Ref(node) => node.Meaning())
    }
  }

  ghost function Footprint(v: Value): set<MapNode>
    reads if v.Ref? then {v.node} else {}
  {
    if v.Ref? then v.node.repr else {}
  }

  ghost predicate IsTree(v: Value)
    reads if v.Ref? then {v.node} + v.node.repr else {}
  {
    v.Ref? ==> v.node.Valid()
  }

  ghost function Meaning(v: Value): T.Tree
    requires IsTree(v)
    reads if v.Ref? then {v.node} + v.node.repr else {}
  {
    match v
    case Nil => T.Null
    case Text(text) => T.Scalar(text)
    case Ref(node) => node.Meaning()
  }

  /** Merges `src` into `dest` and returns what `dest` now holds. Only maps of
      `dest` are written, in whatever order the keys of `src` come. */
  method MergeDeep(dest: Value, src: Value) returns (r: Value)
    requires IsTree(dest) && IsTree(src) && Footprint(dest) !! Footprint(src)
    modifies Footprint(dest)
    ensures IsTree(r) && Footprint(r) <= old(Footprint(dest)) + old(Footprint(src))
    ensures Meaning(r) == T.Merge(old(Meaning(dest)), old(Meaning(src)))
    decreases Meaning(dest), 5
  {
    match dest {
      case Nil => r := src;
      case Text(_) => r := src;
      case Ref(d) =>
        match src {
          case Nil => r := src;
          case Text(_) => r := src;
          case Ref(s) =>
            MergeMaps(d, s);
            r := dest;
        }
    }
  }

  /** `v` is a tree inside `land` that means `t`. */
  ghost predicate Denotes(v: Value, land: set<MapNode>, t: T.Tree)
    reads land
  {
    && (v.Ref? ==> v.node in land && v.node.repr <= land && v.node.Valid())
    && Meaning(v) == t
  }

  /** The entries of `d` mean `ts`, each inside its own part of `land`; nothing
      is said of the meaning of the entries at `open`. */
  ghost predicate Spread(d: MapNode, land: map<string, set<MapNode>>, ts: map<string, T.Tree>, open: set<string>)
    reads d, (set k, n | k in land && n in land[k] :: n)
  {
    && d.entries.Keys == land.Keys == ts.Keys
    && (forall k | k in land :: d !in land[k])
    && (forall j, k | j in land && k in land && j != k :: land[j] !! land[k])
    && (forall k | k in land && k !in open :: Denotes(d.entries[k], land[k], ts[k]))
  }

  method Put(d: MapNode, key: string, v: Value, ghost vLand: set<MapNode>, ghost vt: T.Tree,
             ghost land: map<string, set<MapNode>>, ghost ts: map<string, T.Tree>)
    requires Spread(d, land, ts, {key}) && Denotes(v, vLand, vt)
    requires d !in vLand && forall k | k in land && k != key :: land[k] !! vLand
    modifies d`entries
    ensures Spread(d, land[key := vLand], ts[key := vt], {})
  {
    d.entries := d.entries[key := v];
  }

  /** The round of the loop below for a key that both maps have. */
  method MergeEntry(d: MapNode, key: string, src: Value, ghost srcLand: set<MapNode>, ghost st: T.Tree,
                    ghost land: map<string, set<MapNode>>, ghost ts: map<string, T.Tree>)
    requires Spread(d, land, ts, {}) && key in land
    requires Denotes(src, srcLand, st)
    requires d !in srcLand && forall k | k in land :: land[k] !! srcLand
    modifies d`entries, land[key]
    ensures Spread(d, land[key := land[key] + srcLand], ts[key := T.Merge(ts[key], st)], {})
    decreases ts[key], 6
  {
    var merged := MergeDeep(d.entries[key], src);
    Put(d, key, merged, land[key] + srcLand, T.Merge(ts[key], st), land, ts);
  }

  ghost function PartlyMerged(dm: map<string, T.Tree>, sm: map<string, T.Tree>, todo: set<string>): map<string, T.Tree>
  {
    map k | k in dm.Keys + (sm.Keys - todo) ::
      if k in todo || k !in sm then dm[k] else if k in dm then T.Merge(dm[k], sm[k]) else sm[k]
  }

  lemma PartlyMergedStep(dm: map<string, T.Tree>, sm: map<string, T.Tree>, todo: set<string>, key: string)
    requires key in todo && key in sm
    ensures PartlyMerged(dm, sm, todo - {key}) ==
            PartlyMerged(dm, sm, todo)[key := if key in dm then T.Merge(dm[key], sm[key]) else sm[key]]
  {
  }

  lemma PartlyMergedEnds(dm: map<string, T.Tree>, sm: map<string, T.Tree>)
    ensures PartlyMerged(dm, sm, sm.Keys) == dm
    ensures T.Map(PartlyMerged(dm, sm, {})) == T.Merge(T.Map(dm), T.Map(sm))
  {
    assert PartlyMerged(dm, sm, {}) == T.Merge(T.Map(dm), T.Map(sm)).entries;
  }

  ghost method Enclose(d: MapNode, whole: set<MapNode>, land: map<string, set<MapNode>>, ts: map<string, T.Tree>)
    requires Spread(d, land, ts, {}) && d in whole && forall k | k in land :: land[k] <= whole
    modifies d`repr
    ensures d.Valid() && d.repr == whole && d.Meaning() == T.Map(ts)
  {
    d.repr := whole;
    assert forall k | k in d.entries :: Denotes(d.entries[k], land[k], ts[k]);
    assert d.Meaning().entries == ts;
  }

  ghost function Lands(d: MapNode): map<string, set<MapNode>>
    reads d, d.repr
  {
    map k | k in d.entries :: if d.entries[k].Ref? && d.entries[k].node in d.repr then d.entries[k].node.repr else {}
  }

  lemma ValidIsSpread(d: MapNode)
    requires d.Valid()
    ensures Spread(d, Lands(d), d.Meaning().entries, {})
    ensures forall k | k in d.entries :: Lands(d)[k] <= d.repr - {d}
  {
  }

  /** The part of the heap below each entry once the keys not in `todo` are done. */
  ghost function PartlyShared(dl: map<string, set<MapNode>>, sl: map<string, set<MapNode>>, todo: set<string>)
    : map<string, set<MapNode>>
  {
    map k | k in dl.Keys + (sl.Keys - todo) ::
      if k in todo || k !in sl then dl[k] else if k in dl then dl[k] + sl[k] else sl[k]
  }

  /** `dl` and `sl` divide two disjoint heaps among keys. */
  ghost predicate Apart(dl: map<string, set<MapNode>>, dr: set<MapNode>, sl: map<string, set<MapNode>>,
                        sr: set<MapNode>)
  {
    && dr !! sr
    && (forall k | k in dl :: dl[k] <= dr)
    && (forall k | k in sl :: sl[k] <= sr)
    && (forall j, k | j in sl && k in sl && j != k :: sl[j] !! sl[k])
  }

  lemma PartlySharedStep(dl: map<string, set<MapNode>>, sl: map<string, set<MapNode>>, todo: set<string>, key: string)
    requires key in todo && key in sl
    ensures PartlyShared(dl, sl, todo - {key}) ==
            PartlyShared(dl, sl, todo)[key := if key in dl then dl[key] + sl[key] else sl[key]]
    ensures key in dl ==> PartlyShared(dl, sl, todo)[key] == dl[key]
  {
  }

  lemma PartlySharedApart(dl: map<string, set<MapNode>>, dr: set<MapNode>, sl: map<string, set<MapNode>>,
                          sr: set<MapNode>, todo: set<string>, key: string)
    requires Apart(dl, dr, sl, sr) && key in todo && key in sl
    ensures forall k | k in PartlyShared(dl, sl, todo) :: PartlyShared(dl, sl, todo)[k] !! sl[key]
  {
    var now := PartlyShared(dl, sl, todo);
    forall k | k in now ensures now[k] !! sl[key] {
      if k in dl {
        assert dl[k] !! sl[key];
      }
    }
  }

  ghost predicate Forest(src: map<string, Value>, sl: map<string, set<MapNode>>, sm: map<string, T.Tree>)
    reads set k, n | k in sl && n in sl[k] :: n
  {
    src.Keys == sl.Keys == sm.Keys && forall k | k in src :: Denotes(src[k], sl[k], sm[k])
  }

  /** One round of the loop over the source map. */
  method MergeKey(d: MapNode, key: string, srcValue: Value, ghost todo: set<string>, ghost dr: set<MapNode>,
                  ghost sr: set<MapNode>, ghost dl: map<string, set<MapNode>>, ghost sl: map<string, set<MapNode>>,
                  ghost dm: map<string, T.Tree>, ghost sm: map<string, T.Tree>)
    requires Apart(dl, dr, sl, sr) && key in todo && d !in sr && sl.Keys == sm.Keys
    requires key in sl && Denotes(srcValue, sl[key], sm[key])
    requires Spread(d, PartlyShared(dl, sl, todo), PartlyMerged(dm, sm, todo), {})
    modifies d`entries, if key in dl then dl[key] else {}
    ensures Spread(d, PartlyShared(dl, sl, todo - {key}), PartlyMerged(dm, sm, todo - {key}), {})
    decreases T.Map(dm), 1
  {
    ghost var land, ts := PartlyShared(dl, sl, todo), PartlyMerged(dm, sm, todo);
    PartlySharedStep(dl, sl, todo, key);
    PartlySharedApart(dl, dr, sl, sr, todo, key);
    PartlyMergedStep(dm, sm, todo, key);
    if key in d.entries {
      MergeEntry(d, key, srcValue, sl[key], sm[key], land, ts);
    } else {
      Put(d, key, srcValue, sl[key], sm[key], land, ts);
    }
  }

  /** The loop over the source map, whose keys come in any order. */
  method MergeKeys(d: MapNode, src: map<string, Value>, ghost dr: set<MapNode>, ghost sr: set<MapNode>,
                   ghost dl: map<string, set<MapNode>>, ghost sl: map<string, set<MapNode>>,
                   ghost dm: map<string, T.Tree>, ghost sm: map<string, T.Tree>)
    requires Apart(dl, dr, sl, sr) && d !in sr && d !in dr
    requires Forest(src, sl, sm)
    requires Spread(d, PartlyShared(dl, sl, sl.Keys), PartlyMerged(dm, sm, sm.Keys), {})
    modifies d`entries, dr
    ensures Spread(d, PartlyShared(dl, sl, {}), PartlyMerged(dm, sm, {}), {})
    decreases T.Map(dm), 2
  {
    var todo := src.Keys;
    while todo != {}
      invariant todo <= src.Keys
      invariant Forest(src, sl, sm)
      invariant Spread(d, PartlyShared(dl, sl, todo), PartlyMerged(dm, sm, todo), {})
    {
      var key :| key in todo;
      MergeKey(d, key, src[key], todo, dr, sr, dl, sl, dm, sm);
      todo := todo - {key};
    }
  }

  lemma LandsFit(dl: map<string, set<MapNode>>, dr: set<MapNode>, sl: map<string, set<MapNode>>, sr: set<MapNode>)
    requires Apart(dl, dr, sl, sr)
    ensures PartlyShared(dl, sl, sl.Keys) == dl
    ensures forall k | k in PartlyShared(dl, sl, {}) :: PartlyShared(dl, sl, {})[k] <= dr + sr
  {
    assert PartlyShared(dl, sl, sl.Keys).Keys == dl.Keys;
  }

  method MergeMaps(d: MapNode, s: MapNode)
    requires d.Valid() && s.Valid() && d.repr !! s.repr
    modifies d.repr
    ensures d.Valid() && d.repr == old(d.repr) + old(s.repr)
    ensures d.Meaning() == T.Merge(old(d.Meaning()), old(s.Meaning()))
    decreases d.Meaning(), 4
  {
    ghost var dm, sm := d.Meaning().entries, s.Meaning().entries;
    ghost var dl, sl := Lands(d), Lands(s);
    ValidIsSpread(d);
    ValidIsSpread(s);
    PartlyMergedEnds(dm, sm);
    LandsFit(dl, d.repr - {d}, sl, s.repr);
    MergeKeys(d, s.entries, d.repr - {d}, s.repr, dl, sl, dm, sm);
    Enclose(d, d.repr + s.repr, PartlyShared(dl, sl, {}), PartlyMerged(dm, sm, {}));
  }

  /** A document as `read` returns it: the decoded value or the decoder's error. */
  type Document = Result<Value, string>

  ghost function Whole(lands: seq<set<MapNode>>): set<MapNode> {
    set i, n | 0 <= i < |lands| && n in lands[i] :: n
  }

  /** Freshly read documents: trees that share nothing with each other. */
  ghost predicate Fresh(docs: seq<Document>, lands: seq<set<MapNode>>, means: seq<T.Tree>)
    reads Whole(lands)
  {
    && |docs| == |lands| == |means|
    && (forall i, j | 0 <= i < j < |lands| :: lands[i] !! lands[j])
    && (forall i | 0 <= i < |docs| && docs[i].Ok? :: Denotes(docs[i].value, lands[i], means[i]))
  }

  /** Merges all documents or returns the first decoding error. */
  method Merge(docs: seq<Document>, ghost lands: seq<set<MapNode>>, ghost means: seq<T.Tree>) returns (r: Document)
    requires Fresh(docs, lands, means)
    modifies Whole(lands)
    ensures (forall i | 0 <= i < |docs| :: docs[i].Ok?) ==>
              r.Ok? && IsTree(r.value) && Meaning(r.value) == T.Fold(means)
    ensures forall i | 0 <= i < |docs| && docs[i].Err? && (forall j | 0 <= j < i :: docs[j].Ok?) :: r == docs[i]
  {
    var merged := Nil;
    ghost var used: set<MapNode> := {};
    for i := 0 to |docs|
      invariant forall j | 0 <= j < i :: docs[j].Ok?
      invariant Denotes(merged, used, T.Fold(means[..i]))
      invariant used <= Whole(lands)
      invariant forall j | i <= j < |docs| :: used !! lands[j]
      invariant forall j | i <= j < |docs| && docs[j].Ok? :: Denotes(docs[j].value, lands[j], means[j])
    {
      if docs[i].Err? {
        return docs[i];
      }
      assert means[..i + 1][..i] == means[..i];
      merged := MergeDeep(merged, docs[i].value);
      used := used + lands[i];
    }
    assert means[..|docs|] == means;
    r := Ok(merged);
  }
}

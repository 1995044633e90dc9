/**
 The meaning of merging configuration documents: a right-biased deep merge of
 YAML values (pkg/config/merge.go), its law at every path, and its algebra.
 */
module ConfigTree {
  import opened Results

  /** A decoded YAML document. Every value that is neither null nor a map with
      string keys behaves alike in a merge, so one constructor covers them. */
  datatype Tree = Null | Scalar(text: string) | Map(entries: map<string, Tree>)

  type Path = seq<string>

  function Merge(a: Tree, b: Tree): Tree {
    if a.Map? && b.Map? then
      Map(map k | k in a.entries.Keys + b.entries.Keys ::
            if k !in b.entries then a.entries[k]
            else if k !in a.entries then b.entries[k]
            else Merge(a.entries[k], b.entries[k]))
    else b
  }

  /** Merging a list of documents, earliest first, onto no value at all. */
  function Fold(docs: seq<Tree>): Tree {
    if docs == [] then Null else Merge(Fold(docs[..|docs| - 1]), docs[|docs| - 1])
  }

  function Lookup(t: Tree, p: Path): Option<Tree>
    decreases |p|
  {
    if p == [] then Some(t)
    else if t.Map? && p[0] in t.entries then Lookup(t.entries[p[0]], p[1..])
    else None
  }

  /** Some strict prefix of the path leads to a value that is not a map. */
  predicate Blocked(t: Tree, p: Path)
    decreases |p|
  {
    p != [] && (t.Map? ==> p[0] in t.entries && Blocked(t.entries[p[0]], p[1..]))
  }

  lemma {:induction false} BlockedMeans(t: Tree, p: Path)
    ensures Blocked(t, p) <==>
            exists i | 0 <= i < |p| :: Lookup(t, p[..i]).Some? && !Lookup(t, p[..i]).value.Map?
    decreases |p|
  {
    if p != [] {
      assert p[..0] == [];
      if t.Map? && p[0] in t.entries {
        var child, rest := t.entries[p[0]], p[1..];
        BlockedMeans(child, rest);
        assert forall i | 0 < i <= |p| :: p[..i][0] == p[0] && p[..i][1..] == rest[..i - 1];
        if Blocked(t, p) {
          var i :| 0 <= i < |rest| && Lookup(child, rest[..i]).Some? && !Lookup(child, rest[..i]).value.Map?;
          assert Lookup(t, p[..i + 1]) == Lookup(child, rest[..i]);
        }
      } else if t.Map? {
        assert forall i | 0 < i < |p| :: p[..i][0] == p[0] && Lookup(t, p[..i]).None?;
      }
    }
  }

  /** What a merge holds at every path. */
  lemma {:induction false} PathLaw(a: Tree, b: Tree, p: Path)
    ensures Lookup(b, p).Some? && !Lookup(b, p).value.Map? ==> Lookup(Merge(a, b), p) == Lookup(b, p)
    ensures Lookup(b, p).Some? && Lookup(b, p).value.Map? ==>
              Lookup(Merge(a, b), p) ==
              match Lookup(a, p)
              case Some(v) => Some(Merge(v, Lookup(b, p).value))
              case None => Lookup(b, p)
    ensures Lookup(b, p).None? ==>
              Lookup(Merge(a, b), p) == if Blocked(b, p) then None else Lookup(a, p)
    decreases |p|
  {
    if p != [] && a.Map? && b.Map? && p[0] in a.entries && p[0] in b.entries {
      PathLaw(a.entries[p[0]], b.entries[p[0]], p[1..]);
    }
  }

  lemma {:induction false} MergeIdempotent(a: Tree)
    ensures Merge(a, a) == a
  {
    if a.Map? {
      forall k | k in a.entries ensures Merge(a.entries[k], a.entries[k]) == a.entries[k] {
        MergeIdempotent(a.entries[k]);
      }
      assert Merge(a, a).entries == a.entries;
    }
  }

  /** Merging the same document twice in a row changes nothing. */
  lemma {:induction false} MergeAgain(a: Tree, b: Tree)
    ensures Merge(Merge(a, b), b) == Merge(a, b)
    ensures Merge(a, Merge(a, b)) == Merge(a, b)
  {
    if a.Map? && b.Map? {
      var m := Merge(a, b);
      forall k | k in m.entries
        ensures k in b.entries ==> Merge(m.entries[k], b.entries[k]) == m.entries[k]
        ensures k in a.entries ==> Merge(a.entries[k], m.entries[k]) == m.entries[k]
      {
        if k in a.entries && k in b.entries {
          MergeAgain(a.entries[k], b.entries[k]);
        } else {
          MergeIdempotent(m.entries[k]);
        }
      }
      assert Merge(m, b).entries == m.entries;
      assert Merge(a, m).entries == m.entries;
    } else {
      MergeIdempotent(b);
    }
  }

  /** Wherever both trees carry maps, `c` has every key of `a`. */
  predicate Covers(c: Tree, a: Tree) {
    a.Map? && c.Map? ==> forall k | k in a.entries :: k in c.entries && Covers(c.entries[k], a.entries[k])
  }

  lemma {:induction false} CoversMeans(c: Tree, a: Tree)
    ensures Covers(c, a) <==> Merge(a, c) == c
  {
    if a.Map? && c.Map? {
      forall k | k in a.entries && k in c.entries
        ensures Covers(c.entries[k], a.entries[k]) <==> Merge(a.entries[k], c.entries[k]) == c.entries[k]
      {
        CoversMeans(c.entries[k], a.entries[k]);
      }
      if Covers(c, a) {
        assert Merge(a, c).entries == c.entries;
      } else if Merge(a, c) == c {
        forall k | k in a.entries ensures k in c.entries && Covers(c.entries[k], a.entries[k]) {
          assert k in Merge(a, c).entries;
        }
      }
    }
  }

  /** At path `p` the middle document replaces by a non-map what the outer two
      carry as maps. */
  predicate Shadows(a: Tree, b: Tree, c: Tree, p: Path) {
    && Lookup(a, p).Some? && Lookup(a, p).value.Map?
    && Lookup(b, p).Some? && !Lookup(b, p).value.Map?
    && Lookup(c, p).Some? && Lookup(c, p).value.Map?
  }

  ghost predicate ShadowsHarmless(a: Tree, b: Tree, c: Tree) {
    forall p | Shadows(a, b, c, p) :: Covers(Lookup(c, p).value, Lookup(a, p).value)
  }

  lemma LookupStep(t: Tree, k: string, p: Path)
    requires t.Map? && k in t.entries
    ensures Lookup(t, [k] + p) == Lookup(t.entries[k], p)
  {
    assert ([k] + p)[1..] == p;
  }

  lemma ShadowsHarmlessBelow(a: Tree, b: Tree, c: Tree, k: string)
    requires a.Map? && b.Map? && c.Map? && k in a.entries && k in b.entries && k in c.entries
    requires ShadowsHarmless(a, b, c)
    ensures ShadowsHarmless(a.entries[k], b.entries[k], c.entries[k])
  {
    forall p | Shadows(a.entries[k], b.entries[k], c.entries[k], p)
      ensures Covers(Lookup(c.entries[k], p).value, Lookup(a.entries[k], p).value)
    {
      LookupStep(a, k, p);
      LookupStep(b, k, p);
      LookupStep(c, k, p);
      assert Shadows(a, b, c, [k] + p);
    }
  }

  /** Grouping does not matter exactly when every replaced map is covered again
      by the last document. */
  lemma {:induction false} AssociativeIff(a: Tree, b: Tree, c: Tree)
    ensures Merge(Merge(a, b), c) == Merge(a, Merge(b, c)) <==> ShadowsHarmless(a, b, c)
  {
    if a.Map? && b.Map? && c.Map? {
      AssociativeMaps(a, b, c);
    } else if a.Map? && c.Map? {
      CoversMeans(c, a);
      assert Lookup(a, []) == Some(a) && Lookup(b, []) == Some(b) && Lookup(c, []) == Some(c);
      if Covers(c, a) {
        assert forall p | Shadows(a, b, c, p) :: p == [];
      } else {
        assert Shadows(a, b, c, []);
      }
    }
  }

  lemma {:induction false} AssociativeMaps(a: Tree, b: Tree, c: Tree)
    requires a.Map? && b.Map? && c.Map?
    ensures Merge(Merge(a, b), c) == Merge(a, Merge(b, c)) <==> ShadowsHarmless(a, b, c)
    decreases a, b, c, 0
  {
    var l, r := Merge(Merge(a, b), c), Merge(a, Merge(b, c));
    forall k | k in a.entries && k in b.entries && k in c.entries
      ensures l.entries[k] == r.entries[k] <==> ShadowsHarmless(a.entries[k], b.entries[k], c.entries[k])
    {
      AssociativeIff(a.entries[k], b.entries[k], c.entries[k]);
    }
    if ShadowsHarmless(a, b, c) {
      forall k | k in a.entries && k in b.entries && k in c.entries ensures l.entries[k] == r.entries[k] {
        ShadowsHarmlessBelow(a, b, c, k);
      }
      assert l.entries == r.entries;
    }
    if l == r {
      forall p | Shadows(a, b, c, p) ensures Covers(Lookup(c, p).value, Lookup(a, p).value) {
        assert p != [];
        var k, q := p[0], p[1..];
        assert l.entries[k] == r.entries[k];
        assert Shadows(a.entries[k], b.entries[k], c.entries[k], q);
      }
    }
  }

  /** A scalar between two maps makes the grouping matter. */
  lemma AssociativityFails()
    ensures exists a, b, c :: Merge(Merge(a, b), c) != Merge(a, Merge(b, c))
  {
    var a, b, c := Map(map["x" := Null]), Scalar("off"), Map(map["y" := Null]);
    assert "x" !in c.entries;
    assert "x" in Merge(a, c).entries;
    assert Merge(Merge(a, b), c) != Merge(a, Merge(b, c));
  }

  /** The mode a repository's document asks for with its `_config` key. */
  function Mode(repository: Tree): string {
    match Lookup(repository, ["_config"])
    case Some(Scalar(mode)) => mode
    case _ => ""
  }

  /** The document used for a repository, from the organisation's and its own. */
  function Effective(organisation: Tree, repository: Tree): Tree {
    match Mode(repository)
    case "original" => organisation
    case "merge" => Fold([organisation, repository])
    case _ => repository
  }

  /** The organisation's document is used when the repository asks for the original, both
      are merged when it asks for a merge, and else its own is used. */
  lemma EffectiveIs(organisation: Tree, repository: Tree)
    ensures Effective(organisation, repository) ==
            if Lookup(repository, ["_config"]) == Some(Scalar("original")) then organisation
            else if Lookup(repository, ["_config"]) == Some(Scalar("merge")) then Merge(organisation, repository)
            else repository
  {
    FoldPair(organisation, repository);
  }

  /** In merge mode the repository's own setting wins at every path, the
      organisation's is kept wherever the repository says nothing, and an absent
      organisation document changes nothing. */
  lemma EffectiveMerge(organisation: Tree, repository: Tree, p: Path)
    requires Lookup(repository, ["_config"]) == Some(Scalar("merge"))
    ensures var e := Effective(organisation, repository);
            && (Lookup(repository, p).Some? && !Lookup(repository, p).value.Map? ==>
                Lookup(e, p) == Lookup(repository, p))
            && (Lookup(repository, p).None? ==>
                  Lookup(e, p) == if Blocked(repository, p) then None else Lookup(organisation, p))
            && (!organisation.Map? ==> e == repository)
            && Lookup(e, ["_config"]) == Some(Scalar("merge"))
  {
    FoldPair(organisation, repository);
    PathLaw(organisation, repository, p);
    PathLaw(organisation, repository, ["_config"]);
  }

  lemma FoldPair(a: Tree, b: Tree)
    ensures Fold([a, b]) == Merge(a, b)
  {
    assert [a, b][..1] == [a] && [a, b][1] == b;
    assert [a][..0] == [] && [a][0] == a;
    assert Fold([a]) == Merge(Fold([]), a) == a;
  }
}

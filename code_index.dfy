/** The specification of the code index: which code an entity carries, and
    how the entities of a signature are grouped by code. The mapper's methods
    are proved against these definitions. */
module CodeIndex {
  import opened Wrappers
  import opened Ontologies

  // ---------------------------------------------------------------------
  // Code extraction
  // ---------------------------------------------------------------------

  /** An annotation that yields a code: it is under the code property and its
      value is a literal. */
  predicate IsCodeAnnotation(codeProperty: AnnotationProperty, a: Annotation)
  {
    a.property == codeProperty && a.value.Literal?
  }

  /** Position `i` holds the first code annotation of `annotations`. */
  predicate FirstCodeAt(codeProperty: AnnotationProperty, annotations: seq<Annotation>, i: int)
  {
    && 0 <= i < |annotations|
    && IsCodeAnnotation(codeProperty, annotations[i])
    && forall j :: 0 <= j < i ==> !IsCodeAnnotation(codeProperty, annotations[j])
  }

  /** The code carried by a list of annotations: the literal of the first
      annotation under the code property whose value is a literal, if any. */
  function CodeOf(codeProperty: AnnotationProperty, annotations: seq<Annotation>): Option<string>
  {
    if annotations == [] then None
    else if annotations[0].property != codeProperty then CodeOf(codeProperty, annotations[1..])
    else if annotations[0].value.Literal? then Some(annotations[0].value.lexicalForm)
    else CodeOf(codeProperty, annotations[1..])
  }

  /** The code of an entity in an ontology. */
  function EntityCode(codeProperty: AnnotationProperty, o: Ontology, e: Entity): Option<string>
  {
    CodeOf(codeProperty, o.AnnotationsOf(e))
  }

  /** The first code annotation decides the code. */
  lemma {:induction false} CodeOfFirstMatch(codeProperty: AnnotationProperty, annotations: seq<Annotation>, i: int)
    requires FirstCodeAt(codeProperty, annotations, i)
    ensures CodeOf(codeProperty, annotations) == Some(annotations[i].value.lexicalForm)
  {
    if i > 0 {
      assert !IsCodeAnnotation(codeProperty, annotations[0]);
      var rest := annotations[1..];
      forall j | 0 <= j < i - 1
        ensures !IsCodeAnnotation(codeProperty, rest[j])
      {
        assert rest[j] == annotations[j + 1];
      }
      assert rest[i - 1] == annotations[i];
      CodeOfFirstMatch(codeProperty, rest, i - 1);
    }
  }

  /** A present code is the literal of some first code annotation. */
  lemma {:induction false} CodeOfComesFromFirstMatch(codeProperty: AnnotationProperty, annotations: seq<Annotation>)
    requires CodeOf(codeProperty, annotations).Some?
    ensures exists i :: FirstCodeAt(codeProperty, annotations, i)
                     && annotations[i].value.lexicalForm == CodeOf(codeProperty, annotations).value
  {
    if IsCodeAnnotation(codeProperty, annotations[0]) {
      assert FirstCodeAt(codeProperty, annotations, 0);
    } else {
      var rest := annotations[1..];
      CodeOfComesFromFirstMatch(codeProperty, rest);
      var k :| FirstCodeAt(codeProperty, rest, k) && rest[k].value.lexicalForm == CodeOf(codeProperty, rest).value;
      forall j | 0 <= j < k + 1
        ensures !IsCodeAnnotation(codeProperty, annotations[j])
      {
        if j > 0 { assert annotations[j] == rest[j - 1]; }
      }
      assert FirstCodeAt(codeProperty, annotations, k + 1);
    }
  }

  /** The code is absent exactly when no annotation is under the code property
      with a literal value; one with a non-literal value does not count. */
  lemma {:induction false} CodeOfAbsent(codeProperty: AnnotationProperty, annotations: seq<Annotation>)
    ensures CodeOf(codeProperty, annotations).None?
        <==> forall i :: 0 <= i < |annotations| ==> !IsCodeAnnotation(codeProperty, annotations[i])
  {
    if annotations != [] {
      var rest := annotations[1..];
      CodeOfAbsent(codeProperty, rest);
      forall i | 1 <= i < |annotations|
        ensures annotations[i] == rest[i - 1]
      {
      }
    }
  }

  /** Once a code is found, annotations after it are ignored. */
  lemma {:induction false} CodeOfIgnoresLaterAnnotations(codeProperty: AnnotationProperty, annotations: seq<Annotation>, later: seq<Annotation>)
    requires CodeOf(codeProperty, annotations).Some?
    ensures CodeOf(codeProperty, annotations + later) == CodeOf(codeProperty, annotations)
  {
    var all := annotations + later;
    assert all[0] == annotations[0];
    if !IsCodeAnnotation(codeProperty, annotations[0]) {
      assert all[1..] == annotations[1..] + later;
      CodeOfIgnoresLaterAnnotations(codeProperty, annotations[1..], later);
    }
  }

  // ---------------------------------------------------------------------
  // Grouping entities by code
  // ---------------------------------------------------------------------

  /** The entities of `s` whose code is `c`, in the order of `s`. */
  function Group(codeProperty: AnnotationProperty, o: Ontology, s: seq<Entity>, c: string): seq<Entity>
  {
    if s == [] then []
    else
      var last := s[|s| - 1];
      Group(codeProperty, o, s[..|s| - 1], c) + (if EntityCode(codeProperty, o, last) == Some(c) then [last] else [])
  }

  /** A lookup in an index: the stored group, or the empty collection. */
  function Lookup(index: map<string, seq<Entity>>, code: string): seq<Entity>
  {
    if code in index then index[code] else []
  }

  /** One step of the index build: an entity with a code is appended to the
      group of that code, which is created first if it is missing; an entity
      without a code leaves the index as it was. */
  function AddEntity(codeProperty: AnnotationProperty, o: Ontology, index: map<string, seq<Entity>>, e: Entity): map<string, seq<Entity>>
  {
    match EntityCode(codeProperty, o, e)
    case None => index
    case Some(c) => index[c := Lookup(index, c) + [e]]
  }

  /** The index built by scanning `s` in order. */
  function GroupByCode(codeProperty: AnnotationProperty, o: Ontology, s: seq<Entity>): map<string, seq<Entity>>
  {
    if s == [] then map[]
    else AddEntity(codeProperty, o, GroupByCode(codeProperty, o, s[..|s| - 1]), s[|s| - 1])
  }

  /** A group holds exactly the entities of `s` with that code. */
  lemma {:induction false} GroupMembers(codeProperty: AnnotationProperty, o: Ontology, s: seq<Entity>, c: string, e: Entity)
    ensures e in Group(codeProperty, o, s, c) <==> e in s && EntityCode(codeProperty, o, e) == Some(c)
  {
    if s != [] {
      var init := s[..|s| - 1];
      GroupMembers(codeProperty, o, init, c, e);
      assert s == init + [s[|s| - 1]];
    }
  }

  /** Grouping a concatenation groups each part in turn: a group lists the
      entities in the order the scan met them. */
  lemma {:induction false} GroupAppend(codeProperty: AnnotationProperty, o: Ontology, a: seq<Entity>, b: seq<Entity>, c: string)
    ensures Group(codeProperty, o, a + b, c) == Group(codeProperty, o, a, c) + Group(codeProperty, o, b, c)
  {
    if b == [] {
      assert a + b == a;
    } else {
      var init := b[..|b| - 1];
      assert (a + b)[..|a + b| - 1] == a + init;
      assert (a + b)[|a + b| - 1] == b[|b| - 1];
      GroupAppend(codeProperty, o, a, init, c);
    }
  }

  /** In a duplicate-free sequence, an entity with code `c` occurs exactly once
      in the group of `c`. */
  lemma {:induction false} GroupCountsOnce(codeProperty: AnnotationProperty, o: Ontology, s: seq<Entity>, c: string, e: Entity)
    requires NoDuplicates(s)
    requires e in s && EntityCode(codeProperty, o, e) == Some(c)
    ensures multiset(Group(codeProperty, o, s, c))[e] == 1
  {
    var init, last := s[..|s| - 1], s[|s| - 1];
    assert s == init + [last];
    assert NoDuplicates(init);
    if last == e {
      assert e !in init;
      GroupMembers(codeProperty, o, init, c, e);
      assert multiset(Group(codeProperty, o, init, c))[e] == 0;
    } else {
      assert e in init;
      GroupCountsOnce(codeProperty, o, init, c, e);
    }
  }

  // ---------------------------------------------------------------------
  // What the index promises
  // ---------------------------------------------------------------------

  /** Looking up a code in the built index yields its group: the subsequence
      of the scan whose code is that key, and the empty sequence for a code
      nobody carries. */
  lemma {:induction false} IndexLookupIsGroup(codeProperty: AnnotationProperty, o: Ontology, s: seq<Entity>, c: string)
    ensures Lookup(GroupByCode(codeProperty, o, s), c) == Group(codeProperty, o, s, c)
  {
    if s != [] {
      IndexLookupIsGroup(codeProperty, o, s[..|s| - 1], c);
    }
  }

  /** Every group in the built index is non-empty: a group is only created
      right before an entity is appended to it. */
  lemma {:induction false} IndexGroupsNonEmpty(codeProperty: AnnotationProperty, o: Ontology, s: seq<Entity>, c: string)
    requires c in GroupByCode(codeProperty, o, s)
    ensures |GroupByCode(codeProperty, o, s)[c]| > 0
  {
    var init, last := s[..|s| - 1], s[|s| - 1];
    if EntityCode(codeProperty, o, last) != Some(c) {
      IndexGroupsNonEmpty(codeProperty, o, init, c);
    }
  }

  /** Soundness and completeness of a lookup: an entity is returned for `c`
      exactly when it is in the scan and its code is `c`. In particular an
      entity without a code is returned for no code. */
  lemma {:induction false} IndexMembership(codeProperty: AnnotationProperty, o: Ontology, s: seq<Entity>, c: string, e: Entity)
    ensures e in Lookup(GroupByCode(codeProperty, o, s), c) <==> e in s && EntityCode(codeProperty, o, e) == Some(c)
  {
    IndexLookupIsGroup(codeProperty, o, s, c);
    GroupMembers(codeProperty, o, s, c, e);
  }

  /** The keys of the index are exactly the codes carried in the scan. */
  lemma {:induction false} IndexKeys(codeProperty: AnnotationProperty, o: Ontology, s: seq<Entity>, c: string)
    ensures c in GroupByCode(codeProperty, o, s) <==> exists e :: e in s && EntityCode(codeProperty, o, e) == Some(c)
  {
    var index := GroupByCode(codeProperty, o, s);
    if c in index {
      IndexGroupsNonEmpty(codeProperty, o, s, c);
      IndexMembership(codeProperty, o, s, c, index[c][0]);
    }
    if e :| e in s && EntityCode(codeProperty, o, e) == Some(c) {
      IndexMembership(codeProperty, o, s, c, e);
    }
  }

  /** Over a duplicate-free scan, each entity with a code is in its group
      exactly once. */
  lemma IndexCountsOnce(codeProperty: AnnotationProperty, o: Ontology, s: seq<Entity>, e: Entity)
    requires NoDuplicates(s)
    requires e in s && EntityCode(codeProperty, o, e).Some?
    ensures var c := EntityCode(codeProperty, o, e).value;
            c in GroupByCode(codeProperty, o, s) && multiset(GroupByCode(codeProperty, o, s)[c])[e] == 1
  {
    var c := EntityCode(codeProperty, o, e).value;
    IndexLookupIsGroup(codeProperty, o, s, c);
    GroupCountsOnce(codeProperty, o, s, c, e);
  }

  /** Groups keep scan order: the entities met in the first `k` steps of the
      scan come before those met afterwards. */
  lemma IndexKeepsScanOrder(codeProperty: AnnotationProperty, o: Ontology, s: seq<Entity>, k: nat, c: string)
    requires k <= |s|
    ensures Lookup(GroupByCode(codeProperty, o, s), c) ==
            Lookup(GroupByCode(codeProperty, o, s[..k]), c) + Lookup(GroupByCode(codeProperty, o, s[k..]), c)
  {
    assert s == s[..k] + s[k..];
    GroupAppend(codeProperty, o, s[..k], s[k..], c);
    IndexLookupIsGroup(codeProperty, o, s, c);
    IndexLookupIsGroup(codeProperty, o, s[..k], c);
    IndexLookupIsGroup(codeProperty, o, s[k..], c);
  }

  /** An ontology without the code property in its signature yields an empty
      index: no entity there can carry a code. */
  lemma UndeclaredCodePropertyGivesEmptyIndex(codeProperty: AnnotationProperty, o: Ontology)
    requires o.AnnotationPropertiesDeclared()
    requires !o.ContainsAnnotationPropertyInSignature(codeProperty.iri)
    ensures GroupByCode(codeProperty, o, o.signature) == map[]
  {
    forall e | e in o.signature
      ensures EntityCode(codeProperty, o, e).None?
    {
      var annotations := o.AnnotationsOf(e);
      forall i | 0 <= i < |annotations|
        ensures !IsCodeAnnotation(codeProperty, annotations[i])
      {
        assert annotations[i] in o.annotationAssertions[e.iri];
      }
      CodeOfAbsent(codeProperty, annotations);
    }
    var index := GroupByCode(codeProperty, o, o.signature);
    forall c
      ensures c !in index
    {
      IndexKeys(codeProperty, o, o.signature, c);
    }
    assert index.Keys == {};
  }

  /** The same fact without a precondition, for use inside expressions. */
  lemma NoCodePropertyNoIndex(codeProperty: AnnotationProperty, o: Ontology)
    ensures o.AnnotationPropertiesDeclared() && !o.ContainsAnnotationPropertyInSignature(codeProperty.iri)
            ==> GroupByCode(codeProperty, o, o.signature) == map[]
  {
    if o.AnnotationPropertiesDeclared() && !o.ContainsAnnotationPropertyInSignature(codeProperty.iri) {
      UndeclaredCodePropertyGivesEmptyIndex(codeProperty, o);
    }
  }
}

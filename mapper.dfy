/** The mapper service used when aligning two ontologies: it extracts codes
    from entities and answers "which entities of the target ontology carry
    this code" from an index that is built on first use and kept afterwards. */
module Mapper {
  import opened Wrappers
  import opened Ontologies
  import opened CodeIndex

  /** The configuration key naming the code annotation property. */
  const CodeAnnotationPropertyKey: string := "code.annotation.property"

  datatype ConfigError = MissingCodeAnnotationProperty

  /** The comparison session: the two ontologies being aligned and the slot
      where the session keeps its one code mapper service. */
  class DiffSession {
    const source: Ontology
    const target: Ontology
    var mapperService: CodeToEntityMapper?

    /** A registered mapper belongs to this session and is consistent. */
    ghost predicate Valid()
      reads this, mapperService
    {
      mapperService != null ==> mapperService.diffMap == this && mapperService.Valid()
    }

    constructor (source: Ontology, target: Ontology)
      ensures this.source == source && this.target == target
      ensures mapperService == null && Valid()
    {
      this.source := source;
      this.target := target;
      mapperService := null;
    }
  }

  class CodeToEntityMapper {
    const diffMap: DiffSession
    const codeProperty: AnnotationProperty
    /** The cached target index; None until the first lookup builds it. */
    var targetCodeToEntityMap: Option<map<string, seq<Entity>>>
    /** How many times the target signature has been scanned. */
    ghost var scans: nat

    /** The index of the target ontology, as the build defines it. */
    function TargetIndex(): map<string, seq<Entity>>
    {
      GroupByCode(codeProperty, diffMap.target, diffMap.target.signature)
    }

    /** Before the first lookup nothing was scanned; afterwards the cache
        holds the target index and the target was scanned exactly once. */
    ghost predicate Valid()
      reads this
    {
      match targetCodeToEntityMap
      case None => scans == 0
      case Some(index) => scans == 1 && index == TargetIndex()
    }

    /** The code name is taken as the IRI of the code property as it is. */
    constructor (diffMap: DiffSession, codeName: Iri)
      ensures this.diffMap == diffMap && codeProperty == AnnotationProperty(codeName)
      ensures targetCodeToEntityMap == None && Valid()
    {
      this.diffMap := diffMap;
      codeProperty := AnnotationProperty(codeName);
      targetCodeToEntityMap := None;
      scans := 0;
    }

    /** True when the source or the target lacks the code property. When it is
        the target that lacks it, the mapper still works and its target index
        is empty, so every lookup finds nothing. */
    function CodeNotPresent(): (r: bool)
      ensures r <==> !(diffMap.source.ContainsAnnotationPropertyInSignature(codeProperty.iri)
                       && diffMap.target.ContainsAnnotationPropertyInSignature(codeProperty.iri))
      ensures diffMap.target.AnnotationPropertiesDeclared()
              && !diffMap.target.ContainsAnnotationPropertyInSignature(codeProperty.iri)
              ==> r && TargetIndex() == map[]
    {
      NoCodePropertyNoIndex(codeProperty, diffMap.target);
      !diffMap.source.ContainsAnnotationPropertyInSignature(codeProperty.iri)
      || !diffMap.target.ContainsAnnotationPropertyInSignature(codeProperty.iri)
    }

    /** The code of `entity` in `ontology`: scans its annotations in order and
        returns the literal of the first one under the code property whose
        value is a literal. */
    method GetCode(ontology: Ontology, entity: Entity) returns (code: Option<string>)
      ensures code == CodeOf(codeProperty, ontology.AnnotationsOf(entity))
    {
      var annotations := ontology.AnnotationsOf(entity);
      for i := 0 to |annotations|
        invariant CodeOf(codeProperty, annotations[i..]) == CodeOf(codeProperty, annotations)
      {
        assert annotations[i..][1..] == annotations[i + 1..];
        var annotation := annotations[i];
        if annotation.property != codeProperty {
          continue;
        }
        if annotation.value.Literal? {
          return Some(annotation.value.lexicalForm);
        }
      }
      return None;
    }

    /** One pass over the signature of `ontology`, appending each entity that
        has a code to the group of that code. */
    method GenerateCodeToEntityMap(ontology: Ontology) returns (index: map<string, seq<Entity>>)
      modifies this`scans
      ensures index == GroupByCode(codeProperty, ontology, ontology.signature)
      ensures scans == old(scans) + 1
    {
      scans := scans + 1;
      var signature := ontology.signature;
      index := map[];
      for i := 0 to |signature|
        invariant index == GroupByCode(codeProperty, ontology, signature[..i])
        invariant scans == old(scans) + 1
      {
        var entity := signature[i];
        assert signature[..i + 1] == signature[..i] + [entity];
        var code := GetCode(ontology, entity);
        if code.Some? {
          if code.value !in index {
            index := index[code.value := []];
          }
          index := index[code.value := index[code.value] + [entity]];
        }
      }
      assert signature[..|signature|] == signature;
    }

    /** The target index, built on the first call and reused afterwards. */
    method GetTargetCodeToEntityMap() returns (index: map<string, seq<Entity>>)
      requires Valid()
      modifies this`targetCodeToEntityMap, this`scans
      ensures Valid() && targetCodeToEntityMap == Some(index) && index == TargetIndex()
      ensures scans == 1
      ensures old(targetCodeToEntityMap).Some? ==> targetCodeToEntityMap == old(targetCodeToEntityMap) && scans == old(scans)
    {
      if targetCodeToEntityMap.None? {
        var built := GenerateCodeToEntityMap(diffMap.target);
        targetCodeToEntityMap := Some(built);
      }
      index := targetCodeToEntityMap.value;
    }

    /** The target entities carrying `code`; empty for an unknown code and for
        an absent (null) code, which no key of the index equals. */
    method GetTargetEntities(code: Option<string>) returns (entities: seq<Entity>)
      requires Valid()
      modifies this`targetCodeToEntityMap, this`scans
      ensures Valid() && targetCodeToEntityMap.Some? && scans == 1
      ensures old(targetCodeToEntityMap).Some? ==> targetCodeToEntityMap == old(targetCodeToEntityMap) && scans == old(scans)
      ensures entities == if code.Some? then Lookup(TargetIndex(), code.value) else []
      ensures forall e :: e in entities <==> e in diffMap.target.signature && code.Some?
                                             && EntityCode(codeProperty, diffMap.target, e) == code
      ensures diffMap.target.SignatureIsSet() ==> forall e :: e in entities ==> multiset(entities)[e] == 1
    {
      var index := GetTargetCodeToEntityMap();
      var found := if code.Some? && code.value in index then Some(index[code.value]) else None;
      if found.None? {
        entities := [];
      } else {
        entities := found.value;
      }
      var target := diffMap.target;
      forall e
        ensures e in entities <==> e in target.signature && code.Some? && EntityCode(codeProperty, target, e) == code
      {
        if code.Some? {
          IndexMembership(codeProperty, target, target.signature, code.value, e);
        }
      }
      if target.SignatureIsSet() {
        forall e | e in entities
          ensures multiset(entities)[e] == 1
        {
          IndexCountsOnce(codeProperty, target, target.signature, e);
        }
      }
    }
  }

  /** When the target lacks the code property, every lookup is empty. */
  lemma CodeNotPresentInTargetMeansNoMatches(mapper: CodeToEntityMapper, code: string)
    requires mapper.diffMap.target.AnnotationPropertiesDeclared()
    requires !mapper.diffMap.target.ContainsAnnotationPropertyInSignature(mapper.codeProperty.iri)
    ensures mapper.CodeNotPresent()
    ensures Lookup(mapper.TargetIndex(), code) == []
  {
    UndeclaredCodePropertyGivesEmptyIndex(mapper.codeProperty, mapper.diffMap.target);
  }

  /** The session's mapper: the registered one if there is one; otherwise a
      new mapper for the configured code property, registered in the session.
      A configuration without the code property key is an error. */
  method GetOrCreateMapper(session: DiffSession, parameters: map<string, string>)
    returns (result: Result<CodeToEntityMapper, ConfigError>)
    requires session.Valid()
    modifies session`mapperService
    ensures session.Valid()
    ensures old(session.mapperService) != null ==>
      result.Success? && result.value == old(session.mapperService) && session.mapperService == old(session.mapperService)
    ensures old(session.mapperService) == null && CodeAnnotationPropertyKey !in parameters ==>
      result == Failure(MissingCodeAnnotationProperty) && session.mapperService == null
    ensures old(session.mapperService) == null && CodeAnnotationPropertyKey in parameters ==>
      && result.Success? && fresh(result.value) && session.mapperService == result.value
      && result.value.codeProperty == AnnotationProperty(parameters[CodeAnnotationPropertyKey])
      && result.value.targetCodeToEntityMap == None
  {
    var mapper := session.mapperService;
    if mapper == null {
      if CodeAnnotationPropertyKey !in parameters {
        return Failure(MissingCodeAnnotationProperty);
      }
      mapper := new CodeToEntityMapper(session, parameters[CodeAnnotationPropertyKey]);
      session.mapperService := mapper;
    }
    return Success(mapper);
  }

  /** Two lookups of the same code on one mapper give equal results and scan
      the target ontology once between them. */
  method LookupTwice(mapper: CodeToEntityMapper, code: Option<string>) returns (first: seq<Entity>, second: seq<Entity>)
    requires mapper.Valid()
    modifies mapper`targetCodeToEntityMap, mapper`scans
    ensures first == second && mapper.scans == 1
  {
    first := mapper.GetTargetEntities(code);
    second := mapper.GetTargetEntities(code);
  }
}

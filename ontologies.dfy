/** The part of an OWL ontology that the code mapper consults: the entities of
    its signature and the annotations asserted about them. The ontology itself
    is an external component; it is modelled here as an immutable value. */
module Ontologies {

  type Iri = string

  /** The kinds of entity an OWL signature holds. */
  datatype EntityKind =
    | ClassEntity
    | ObjectPropertyEntity
    | DataPropertyEntity
    | AnnotationPropertyEntity
    | NamedIndividualEntity
    | DatatypeEntity

  /** An entity is identified by its kind and its IRI. */
  datatype Entity = Entity(kind: EntityKind, iri: Iri)

  datatype AnnotationProperty = AnnotationProperty(iri: Iri)

  /** The value of an annotation: a literal carries a string, the other two
      are references and carry no code. */
  datatype AnnotationValue =
    | Literal(lexicalForm: string)
    | IriValue(iri: Iri)
    | AnonymousIndividual(nodeId: string)

  datatype Annotation = Annotation(property: AnnotationProperty, value: AnnotationValue)

  /** `signature` is the ontology's signature, a set, listed in an arbitrary
      but fixed iteration order; `annotationAssertions` maps a subject IRI to
      the annotations asserted about it, also a set listed in an arbitrary but
      fixed iteration order. "First" always refers to that order. */
  datatype Ontology = Ontology(signature: seq<Entity>, annotationAssertions: map<Iri, seq<Annotation>>)
  {
    /** The annotations of `e` in this ontology. They are found by the
        entity's IRI, so entities that share an IRI share their annotations. */
    function AnnotationsOf(e: Entity): seq<Annotation>
    {
      if e.iri in annotationAssertions then annotationAssertions[e.iri] else []
    }

    /** Whether an annotation property with this IRI is in the signature. */
    predicate ContainsAnnotationPropertyInSignature(iri: Iri)
    {
      Entity(AnnotationPropertyEntity, iri) in signature
    }

    /** The signature is a set: no entity occurs twice. */
    predicate SignatureIsSet()
    {
      NoDuplicates(signature)
    }

    /** Every property used in an annotation assertion is in the signature,
        as it is for any ontology the OWL API loads. */
    predicate AnnotationPropertiesDeclared()
    {
      forall iri, a :: iri in annotationAssertions && a in annotationAssertions[iri] ==>
        ContainsAnnotationPropertyInSignature(a.property.iri)
    }
  }

  predicate NoDuplicates(s: seq<Entity>)
  {
    forall i, j :: 0 <= i < j < |s| ==> s[i] != s[j]
  }
}

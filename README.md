# Code-to-entity mapper for OWL ontology alignment

This project models `CodeToEntityMapper`, a service used while two OWL ontologies
(a source and a target) are aligned. An entity can carry a *code*: a string found
in an annotation under a configured annotation property. The mapper does two things.
It extracts the code of an entity. It also answers "which entities of the target
ontology carry this code", using a code index that is built on the first query and
reused afterwards.

The model has four modules:

- `Wrappers` (`wrappers.dfy`): `Option` stands for a nullable Java reference, and
  `Result` stands for an operation that can throw.
- `Ontologies` (`ontologies.dfy`): the ontology is an external collaborator and is
  modelled as an immutable value. It has a signature (a sequence of entities, each an
  entity kind plus an IRI) and annotation assertions keyed by subject IRI. A property
  "is in the signature" when an annotation-property entity with its IRI is there.
- `CodeIndex` (`code_index.dfy`): the specification.
  - `CodeOf` is first-match code extraction.
  - `GroupByCode` is the index obtained by scanning a signature in order.
  - `Group` is an independent reference definition: the subsequence of the scan that
    carries a given code.
  - Lemmas connect these definitions to what the mapper promises.
- `Mapper` (`mapper.dfy`): the classes.
  - `DiffSession` holds the ontology pair and the session's registered mapper service.
  - `CodeToEntityMapper` has a fixed `codeProperty` and a cache field
    `targetCodeToEntityMap` (`None` until the first query).
  - A ghost counter `scans` is raised by each index build, so it counts scans of the target signature.
    `Valid()` ties the cache to the target index and bounds `scans` by one.
  - A `null` code passed to `GetTargetEntities` is `None`; it finds no key and gives the
    empty sequence.
  - Its methods are imperative, like the Java code: `GetCode` loops over the
    annotations with an early return, and `GenerateCodeToEntityMap` loops over the
    signature and updates a map of groups.

## Model

| member | source | states |
|---|---|---|
| `CodeIndex.CodeOfFirstMatch` | src/main/java/org/protege/owl/diff/service/CodeToEntityMapper.java:64-75 | if position i holds the first annotation under the code property with a literal value, the code is that literal's string; later matches do not matter |
| `CodeIndex.CodeOfComesFromFirstMatch` | src/main/java/org/protege/owl/diff/service/CodeToEntityMapper.java:65-72 | a present code is always the literal string of the first annotation under the code property whose value is a literal |
| `CodeIndex.CodeOfAbsent` | src/main/java/org/protege/owl/diff/service/CodeToEntityMapper.java:66-74 | the code is absent exactly when no annotation has both the code property and a literal value; an annotation under the code property with a non-literal value is skipped |
| `CodeIndex.CodeOfIgnoresLaterAnnotations` | src/main/java/org/protege/owl/diff/service/CodeToEntityMapper.java:70-72 | once a code is found, adding annotations after it does not change it (early return) |
| `CodeIndex.IndexLookupIsGroup` | src/main/java/org/protege/owl/diff/service/CodeToEntityMapper.java:97-106 | the group built for a code is exactly the subsequence of the scanned signature whose code is that key, in scan order; an unknown code looks up to the empty sequence |
| `CodeIndex.IndexMembership` | src/main/java/org/protege/owl/diff/service/CodeToEntityMapper.java:98-105 | an entity is in the group of c if and only if it is in the signature and its code is c; so an entity without a code is in no group |
| `CodeIndex.IndexKeys` | src/main/java/org/protege/owl/diff/service/CodeToEntityMapper.java:99-104 | a code is a key of the built index if and only if some scanned entity carries it |
| `CodeIndex.IndexGroupsNonEmpty` | src/main/java/org/protege/owl/diff/service/CodeToEntityMapper.java:100-105 | every key of the built index maps to a non-empty group, because a group is created right before an entity is appended |
| `CodeIndex.IndexCountsOnce` | src/main/java/org/protege/owl/diff/service/CodeToEntityMapper.java:97-106 | over a duplicate-free signature, each entity with code c occurs in the group of c exactly once |
| `CodeIndex.IndexKeepsScanOrder` | src/main/java/org/protege/owl/diff/service/CodeToEntityMapper.java:97-105 | a group lists entities met earlier in the scan before those met later (the group over a split scan is the concatenation of the groups of its parts) |
| `CodeIndex.UndeclaredCodePropertyGivesEmptyIndex` | src/main/java/org/protege/owl/diff/service/CodeToEntityMapper.java:95-109 | in an ontology whose annotation properties are all declared, a missing code property means the built index is empty |
| `Mapper.CodeToEntityMapper.constructor` | src/main/java/org/protege/owl/diff/service/CodeToEntityMapper.java:40-53 | the code property is the configured name taken as an IRI as it is; the cache starts empty and nothing has been scanned |
| `Mapper.CodeToEntityMapper.CodeNotPresent` | src/main/java/org/protege/owl/diff/service/CodeToEntityMapper.java:55-58 | true if and only if the source or the target ontology lacks the code property in its signature; when the flag is set because the target (whose annotation properties are all declared) lacks it, the mapper still works and the target index is empty, so every lookup returns nothing |
| `Mapper.CodeNotPresentInTargetMeansNoMatches` | src/main/java/org/protege/owl/diff/service/CodeToEntityMapper.java:55-58 | when the target lacks the code property, `CodeNotPresent` holds and every lookup of the target index returns the empty sequence |
| `Mapper.CodeToEntityMapper.GetCode` | src/main/java/org/protege/owl/diff/service/CodeToEntityMapper.java:64-75 | the loop with early return computes `CodeOf` of the entity's annotations in that ontology, so the first-match lemmas above apply to it |
| `Mapper.CodeToEntityMapper.GenerateCodeToEntityMap` | src/main/java/org/protege/owl/diff/service/CodeToEntityMapper.java:95-109 | the one-pass build returns `GroupByCode` of the ontology's signature, so the index lemmas apply to its result; each call is one scan and adds one to the scan counter |
| `Mapper.CodeToEntityMapper.GetTargetCodeToEntityMap` | src/main/java/org/protege/owl/diff/service/CodeToEntityMapper.java:87-92 | returns the target index; scans the target only when the cache is empty; a filled cache is reused unchanged and nothing is rescanned; exactly one scan overall |
| `Mapper.CodeToEntityMapper.GetTargetEntities` | src/main/java/org/protege/owl/diff/service/CodeToEntityMapper.java:77-85 | returns the stored group for a known code and the empty sequence for an unknown or null code; its members are exactly the target entities whose code is the given one; over a duplicate-free target signature each member occurs once; the target is scanned at most once |
| `Mapper.LookupTwice` | src/main/java/org/protege/owl/diff/service/CodeToEntityMapper.java:77-92 | two lookups of the same code on one mapper return equal results, and the target is scanned once in all |
| `Mapper.GetOrCreateMapper` | src/main/java/org/protege/owl/diff/service/CodeToEntityMapper.java:30-37 | returns the session's registered mapper unchanged if there is one; otherwise registers and returns a fresh mapper for the configured code property, with an empty cache |

## Left out

- Logging: the constructor's warnings (lines 47 and 50) are side output only. The
  target warning is behind an `else if`, so it is not issued when the source already
  lacks the property. `CodeNotPresent` still checks both ontologies independently.
- The `UnmodifiableMap` inner class (lines 111-185) is an unused stub with default
  bodies and is not modelled.
- The `Collections.unmodifiableMap` and `unmodifiableCollection` wrappers are not
  modelled. Dafny's `map` and `seq` values cannot be mutated by a caller.
  `Collections.emptySet()` for an unknown code becomes the empty sequence.
- The OWL API is not part of this model. This covers `IRI.create`, the data factory,
  the ontology implementation and the `Properties` object (a `map<string, string>`).
  Annotation property equality is IRI equality. `getAnnotations(ontology)` is looked up
  by the entity's IRI.
- `GetOrCreateMapper`: a configuration without the code key is modelled as
  `Failure(MissingCodeAnnotationProperty)`. The Java code passes `null` to `IRI.create`,
  which raises an exception. A value that is not a string is not modelled.
- An entity's annotations form a set in the OWL API. The model lists them as an
  arbitrary but fixed sequence. "First" in `CodeOfFirstMatch` and
  `CodeOfComesFromFirstMatch` means first in that sequence, and no other order. When an
  entity has several literal codes, the winner depends on the ontology implementation.
- The signature's hash-set iteration order is an arbitrary but fixed input sequence.
  Duplicate-freedom is a hypothesis (`NoDuplicates`) only where "exactly once" is stated.
- The ontologies are immutable values here. A later external change to the target
  ontology, which the Java cache would not see, cannot be expressed.
- `getCodeProperty` is the constant field `codeProperty`.
- The local `ontology` read in the constructor (line 42) is unused there and is not
  modelled.
- Concurrency: the Java code has none. The check-then-act cache fill is modelled
  sequentially.

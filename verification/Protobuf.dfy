/** Message types as descriptors give them. */
module Protobuf {

  type TypeName = string

  datatype Cardinality = Singular | Repeated | Mapped

  /** A map's kind is that of its values. */
  datatype Kind = Plain | Sub(target: TypeName)

  datatype FieldDesc = FieldDesc(number: nat, name: string, cardinality: Cardinality, kind: Kind)

  /** The descriptors of one generation: a finite graph that may be cyclic. */
  type Descriptors = map<TypeName, seq<FieldDesc>>
}

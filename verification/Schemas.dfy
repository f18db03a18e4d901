/** Target schemas and request contexts, as the packages share them. */
module Schemas {

  type uint64 = x: int | 0 <= x < 0x1_0000_0000_0000_0000

  datatype FieldType = TypeString | TypeInteger | TypeDecimal | TypeBoolean | TypeDateTime | Unsupported(name: string)

  datatype Field = Field(id: uint64, name: string, fieldType: FieldType, required: bool)

  datatype Schema = Schema(id: uint64, name: string, fields: seq<Field>)

  /** A context.Context: one that cannot be cancelled never reports an error. */
  datatype Context = Context(cancellable: bool)

  /** ctx.Err() != nil */
  method Cancelled(ctx: Context) returns (cancelled: bool)
    ensures cancelled ==> ctx.cancellable
  {
    var chance: bool := *;
    cancelled := ctx.cancellable && chance;
  }
}

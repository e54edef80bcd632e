/**
 * A closed stand-in for the reflection the dispatcher does: the kinds of Go types,
 * the parameter types a command may declare, and the typed values it is called with.
 */
module Types {
  import opened Discord

  /** reflect.Kind, without the two complex kinds. */
  datatype Kind =
    | Invalid | Bool
    | Int | Int8 | Int16 | Int32 | Int64
    | Uint | Uint8 | Uint16 | Uint32 | Uint64 | Uintptr
    | Float32 | Float64
    | Array | Chan | Func | Interface | Map | Ptr | Slice | String | Struct | UnsafePointer

  /** The kind of a type that is neither a pointer nor a slice. */
  type PlainKind = k: Kind | !k.Ptr? && !k.Slice? witness Invalid

  /** What a pointer parameter points to. */
  datatype Referent =
    | SessionT        // discordgo.Session
    | MessageCreateT  // discordgo.MessageCreate
    | ChannelT        // discordgo.Channel
    | UserT           // discordgo.User
    | OtherT(name: string)

  /** A type that is not a slice: known by its kind, or a pointer. */
  datatype Scalar = Plain(kind: PlainKind) | PtrTo(referent: Referent)

  /** A parameter type: one value, or a slice of values. */
  datatype Type = Single(scalar: Scalar) | SliceOf(elem: Scalar)

  const SESSION_TYPE := Single(PtrTo(SessionT))
  const MESSAGE_CREATE_TYPE := Single(PtrTo(MessageCreateT))

  function ScalarKind(t: Scalar): Kind {
    match t
    case Plain(k) => k
    case PtrTo(_) => Ptr
  }

  function KindOf(t: Type): Kind {
    match t
    case Single(s) => ScalarKind(s)
    case SliceOf(_) => Slice
  }

  /** The kinds no command parameter (nor slice element) may have. */
  predicate Illegal(k: Kind) {
    k.Invalid? || k.Uintptr? || k.Array? || k.Chan? || k.Func? ||
    k.Interface? || k.Map? || k.Struct? || k.UnsafePointer?
  }

  /** The type's printed name, as %s prints a reflect.Type. */
  function ReferentName(r: Referent): string {
    match r
    case SessionT => "discordgo.Session"
    case MessageCreateT => "discordgo.MessageCreate"
    case ChannelT => "discordgo.Channel"
    case UserT => "discordgo.User"
    case OtherT(name) => name
  }

  predicate IsSigned(k: Kind) {
    k.Int? || k.Int8? || k.Int16? || k.Int32? || k.Int64?
  }

  predicate IsUnsigned(k: Kind) {
    k.Uint? || k.Uint8? || k.Uint16? || k.Uint32? || k.Uint64?
  }

  predicate IsInteger(k: Kind) {
    IsSigned(k) || IsUnsigned(k)
  }

  predicate IsFloat(k: Kind) {
    k.Float32? || k.Float64?
  }

  /** Bit width; Go's int and uint are taken to be 64 bits wide. */
  function Bits(k: Kind): nat
    requires IsInteger(k) || IsFloat(k)
  {
    match k
    case Int8 | Uint8 => 8
    case Int16 | Uint16 => 16
    case Int32 | Uint32 | Float32 => 32
    case _ => 64
  }

  /** 2 to the power Bits(k): how many values a variable of integer kind k can hold. */
  function Span(k: Kind): nat
    requires IsInteger(k)
  {
    var b := Bits(k);
    if b == 8 then 0x100
    else if b == 16 then 0x1_0000
    else if b == 32 then 0x1_0000_0000
    else 0x1_0000_0000_0000_0000
  }

  /** The values a variable of integer kind k can hold (two's complement when signed). */
  predicate InRange(k: Kind, i: int)
    requires IsInteger(k)
  {
    if IsSigned(k) then 0 - Span(k) / 2 <= i < Span(k) / 2
    else 0 <= i < Span(k)
  }

  /** A converted argument, as the reflect.Value handed to the command body. */
  datatype Val =
    | StrV(s: string)
    | BoolV(b: bool)
    | IntV(i: int)
    | FloatV(x: real)
    | ChannelV(channel: Channel)
    | UserV(user: User)
    | SliceV(elems: seq<Val>)

  /** v is a value of type t. */
  predicate HasType(v: Val, t: Scalar) {
    match t
    case Plain(k) =>
      (k.String? && v.StrV?) || (k.Bool? && v.BoolV?) ||
      (IsInteger(k) && v.IntV? && InRange(k, v.i)) || (IsFloat(k) && v.FloatV?)
    case PtrTo(r) => (r.ChannelT? && v.ChannelV?) || (r.UserT? && v.UserV?)
  }

  predicate HasParamType(v: Val, t: Type) {
    match t
    case Single(s) => HasType(v, s)
    case SliceOf(e) => v.SliceV? && forall x :: x in v.elems ==> HasType(x, e)
  }
}

/** Heap blocks as the collectors see them: a type, an element count, and payload words. */
module Heaps {
  /** A payload word; pointers are payload addresses, the null pointer is `Ptr(0)`. */
  datatype Word = Raw(bits: int) | Ptr(at: int)

  datatype Kind =
    | String | Array | ArrayData | Object | ObjectData | Function | NativeFunction | Environment
    | Set | Float16Array | Promise | IteratorHelper | Symbol | RegExp | Error | Buffer | BufferData
    | SharedArrayBuffer

  /** `count` is the number of words in use: of the data block for arrays, objects and
      sets, of the trailing values for environments. */
  datatype Block = Block(kind: Kind, count: nat, words: seq<Word>)

  type Heap = map<int, Block>

  /** Words of the fixed part of a block. */
  function Fixed(kind: Kind): (n: nat)
    ensures n >= 1
  {
    match kind
    case Array => 2
    case Object => 2
    case Set => 2
    case Function => 9
    case NativeFunction => 9
    case Environment => 2
    case Float16Array => 2
    case Promise => 3
    case IteratorHelper => 5
    case Symbol => 2
    case RegExp => 4
    case Error => 5
    case Buffer => 4
    case _ => 1
  }

  predicate WellFormed(b: Block) {
    |b.words| >= Fixed(b.kind) && (b.kind.Environment? ==> |b.words| >= 2 + b.count)
  }

  function UpTo(lo: nat, hi: nat): (s: seq<nat>)
    ensures |s| == if lo <= hi then hi - lo else 0
    ensures forall i :: 0 <= i < |s| ==> s[i] == lo + i
  {
    if lo <= hi then seq(hi - lo, i requires 0 <= i => lo + i) else []
  }

  // ------------------------------------------------------------------- layouts

  /** What a word of a block is for: plain bits, a value of the language, the address of
      the block with the elements or properties, that of another block, or an address
      outside the heap. */
  datatype Field = Bits | Val | Data | Ref | Outside

  /** The fields of the object structures, word by word. */
  function Fields(kind: Kind): (fs: seq<Field>)
    ensures |fs| == 0 || |fs| == Fixed(kind)
  {
    match kind
    case String => [Bits]                          // length and hash; characters follow
    case Array => [Bits, Data]                     // length and capacity, elements
    case ArrayData => []
    case Object => [Bits, Data]                    // count and capacity, properties
    case ObjectData => []
    case Function =>                               // prog, offset and registers, parameters, env, name,
      [Outside, Bits, Bits, Val, Val, Ref, Data, Bits, Outside]  // target, properties, counts, user_data
    case NativeFunction => [Outside, Bits, Bits, Val, Val, Outside, Data, Bits, Outside]
    case Environment => [Val, Bits]                // parent, count; values follow
    case Set => [Bits, Data]                       // count and capacity, elements
    case Float16Array => [Bits, Ref]               // length, data
    case Promise => [Bits, Val, Val]               // state, result, then_callbacks
    case IteratorHelper => [Val, Val, Bits, Val, Bits]  // source, callback, count, inner, type and done
    case Symbol => [Val, Bits]                     // description, id
    case RegExp => [Val, Val, Outside, Bits]       // source, flags, compiled, options
    case Error => [Val, Val, Val, Bits, Data]      // name, message, stack, counts, properties
    case Buffer => [Bits, Outside, Bits, Val]      // length, data, is_external, slab_ref
    case BufferData => []
    case SharedArrayBuffer => []
  }

  /** How many words behind the fields hold values: all elements of arrays, whole pairs of
      properties, the variables of an environment. */
  function Trailing(b: Block): nat {
    match b.kind
    case ArrayData => |b.words|
    case ObjectData => |b.words| / 2 * 2
    case Environment => b.count
    case _ => 0
  }

  /** Word `k` of the block is one through which the program gets at other blocks. */
  predicate Readable(b: Block, k: int) {
    var fs := Fields(b.kind);
    0 <= k < |b.words| && if k < |fs| then fs[k] in {Val, Data, Ref} else k < |fs| + Trailing(b)
  }
}

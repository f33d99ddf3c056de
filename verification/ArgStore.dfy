/**
 Argument lists (`src/3rdparty/fmt/core.h`): packed type descriptors, and the dynamic
 store whose storage shifts by one when the first named argument arrives.
 */
module ArgStore {
  import opened Arithmetic
  import opened Options

  const MAX_INT: int := 0x7FFF_FFFF

  // ---- Packed descriptors (core.h:1234-1238, 1421-1427, 1590-1595, 1870-1874) ----

  const MAX_PACKED_ARGS: nat := 15
  const NAMED_ARGS_BIT: nat := 0x4000_0000_0000_0000
  const UNPACKED_BIT: nat := 0x8000_0000_0000_0000

  /** A type code; 0 is `none_type`. */
  type TypeCode = c: int | 0 <= c < 16

  function Pow16(n: nat): (p: nat)
    ensures p > 0
  {
    if n == 0 then 1 else 16 * Pow16(n - 1)
  }

  /** `encode_types`: the first code in the lowest four bits. */
  function EncodeTypes(codes: seq<TypeCode>): (desc: nat)
    ensures desc < Pow16(|codes|)
  {
    if codes == [] then 0 else codes[0] + 16 * EncodeTypes(codes[1..])
  }

  /** `desc` of `format_arg_store`. The parts combined by `|` share no bits. */
  function Descriptor(codes: seq<TypeCode>, named: bool): nat {
    (if |codes| <= MAX_PACKED_ARGS then EncodeTypes(codes) else UNPACKED_BIT + |codes|)
    + if named then NAMED_ARGS_BIT else 0
  }

  /** `type(index)` */
  function TypeAt(desc: nat, index: nat): TypeCode {
    desc / Pow16(index) % 16
  }

  lemma {:induction false} TypeOfShifted(code: TypeCode, rest: nat, i: nat)
    ensures TypeAt(code + 16 * rest, i) == if i == 0 then code else TypeAt(rest, i - 1)
  {
    if i == 0 {
      assert Pow16(0) == 1;
    } else {
      DivideTwice(code + 16 * rest, 16, Pow16(i - 1));
    }
  }

  /** Reading back a code, with anything at all in the bits above the list. */
  lemma {:induction false} TypeOfEncoded(codes: seq<TypeCode>, above: nat, i: nat)
    ensures TypeAt(EncodeTypes(codes) + Pow16(|codes|) * above, i)
         == if i < |codes| then codes[i] else TypeAt(above, i - |codes|)
    decreases |codes|
  {
    if codes == [] {
      assert Pow16(0) == 1;
    } else {
      var p, rest := Pow16(|codes| - 1), EncodeTypes(codes[1..]);
      Scaled(16, Pow16(|codes|), p, above);
      assert EncodeTypes(codes) + Pow16(|codes|) * above == codes[0] + 16 * (rest + p * above);
      hide TypeAt, Pow16, EncodeTypes;
      TypeOfShifted(codes[0], rest + p * above, i);
      if i > 0 {
        TypeOfEncoded(codes[1..], above, i - 1);
      }
    }
  }

  lemma {:induction false} Pow16Adds(a: nat, b: nat)
    ensures Pow16(a + b) == Pow16(a) * Pow16(b)
  {
    if a > 0 {
      Pow16Adds(a - 1, b);
      Scaled(16, Pow16(a), Pow16(a - 1), Pow16(b));
    }
  }

  /** A multiple of 16^(j+1) has a zero at position `j`. */
  lemma {:induction false} ZeroBelow(above: nat, j: nat, q: nat)
    requires above == Pow16(j) * (16 * q)
    ensures TypeAt(above, j) == 0
  {
    ModUnique(above, Pow16(j), 16 * q, 0);
  }

  /** Flags at bit 60 and up, as seen from the end of a list of `n` codes. */
  lemma {:induction false} HighBits(n: nat, k: nat, j: nat)
    requires n + j < MAX_PACKED_ARGS
    ensures TypeAt(k * Pow16(15 - n), j) == 0
  {
    var q := Pow16(14 - n - j);
    Pow16Adds(j, 15 - n - j);
    SwapMiddle(Pow16(j), k, 16 * q);
    Regroup(16, k, q);
    Scaled(16, 16 * q, q, k);
    ZeroBelow(k * Pow16(15 - n), j, k * q);
  }

  lemma {:induction false} HighBitsAre()
    ensures 4 * Pow16(15) == NAMED_ARGS_BIT && 8 * Pow16(15) == UNPACKED_BIT
  {
    assert Pow16(5) == 0x10_0000;
    Pow16Adds(5, 5);
    Pow16Adds(10, 5);
  }

  /**
   For a list of at most 15 arguments the descriptor gives back each code, `none_type` for
   every other index it can be asked about, and does so whether or not the flags for named
   arguments and for the unpacked form are set beside it.
   */
  lemma {:induction false} DescriptorRoundTrip(codes: seq<TypeCode>, named: bool, unpacked: bool, i: nat)
    requires |codes| <= MAX_PACKED_ARGS && i < MAX_PACKED_ARGS
    ensures TypeAt(Descriptor(codes, named) + if unpacked then UNPACKED_BIT else 0, i)
         == if i < |codes| then codes[i] else 0
  {
    hide TypeAt, Pow16;
    var n := |codes|;
    var k := (if named then 4 else 0) + (if unpacked then 8 else 0);
    HighBitsAre();
    Pow16Adds(n, 15 - n);
    SwapMiddle(Pow16(n), k, Pow16(15 - n));
    if i >= n {
      HighBits(n, k, i - n);
    }
    TypeOfEncoded(codes, k * Pow16(15 - n), i);
  }

  /**
   The two flags, and the number of arguments where they do not fit a packed list: the bits
   below the flags, which are never used otherwise.
   */
  lemma {:induction false} DescriptorFlags(codes: seq<TypeCode>, named: bool)
    requires |codes| < NAMED_ARGS_BIT
    ensures Descriptor(codes, named) / NAMED_ARGS_BIT % 2 == if named then 1 else 0
    ensures Descriptor(codes, named) / UNPACKED_BIT == if |codes| > MAX_PACKED_ARGS then 1 else 0
    ensures |codes| > MAX_PACKED_ARGS ==> Descriptor(codes, named) % NAMED_ARGS_BIT == |codes|
  {
    var n := |codes|;
    if n <= MAX_PACKED_ARGS {
      HighBitsAre();
      Pow16Adds(n, 15 - n);
      MulMono(Pow16(n), 1, Pow16(15 - n));
    }
    hide Pow16;
  }

  // ---- The dynamic store (core.h:1671-1832) ----

  datatype Arg = Arg(id: nat)

  /** `named_arg_info` */
  datatype NamedInfo = NamedInfo(name: string, id: int)

  /** An element of `data_`: an argument, or the header that points to the names. */
  datatype Slot = ArgSlot(arg: Arg) | NamesSlot(names: seq<NamedInfo>)

  /** What a caller pushed: the reference the store is compared with. */
  datatype Entry = Entry(name: Option<string>, arg: Arg)

  function Slots(pushed: seq<Entry>): (r: seq<Slot>)
    ensures |r| == |pushed|
  {
    seq(|pushed|, k requires 0 <= k < |pushed| => ArgSlot(pushed[k].arg))
  }

  /** The named entries with their positions, in order. */
  function Names(pushed: seq<Entry>): (r: seq<NamedInfo>)
    ensures |r| <= |pushed|
  {
    if pushed == [] then []
    else
      var n := |pushed| - 1;
      Names(pushed[..n]) + match pushed[n].name case None => [] case Some(name) => [NamedInfo(name, n)]
  }

  /** The position of the first entry with this name, or -1. */
  function FirstNamed(pushed: seq<Entry>, name: string): (r: int)
    ensures -1 <= r < |pushed|
    ensures r >= 0 ==> pushed[r].name == Some(name)
    ensures forall k :: 0 <= k < (if r >= 0 then r else |pushed|) ==> pushed[k].name != Some(name)
  {
    if pushed == [] then -1
    else
      var n := |pushed| - 1;
      var r := FirstNamed(pushed[..n], name);
      if r >= 0 then r else if pushed[n].name == Some(name) then n else -1
  }

  /** The first record with this name in a list of names. */
  function IdIn(names: seq<NamedInfo>, name: string): int {
    if names == [] then -1 else if names[0].name == name then names[0].id else IdIn(names[1..], name)
  }

  lemma {:induction false} IdInConcat(a: seq<NamedInfo>, b: seq<NamedInfo>, name: string)
    requires forall x <- a :: x.id >= 0
    ensures IdIn(a + b, name) == if IdIn(a, name) >= 0 then IdIn(a, name) else IdIn(b, name)
  {
    if a == [] {
      assert a + b == b;
    } else {
      assert (a + b)[1..] == a[1..] + b;
      assert a[0] in a && forall x <- a[1..] :: x in a;
      IdInConcat(a[1..], b, name);
    }
  }

  /** Searching the names finds the first entry pushed with that name. */
  lemma {:induction false} NamesFindFirst(pushed: seq<Entry>, name: string)
    ensures forall x <- Names(pushed) :: x.id >= 0
    ensures IdIn(Names(pushed), name) == FirstNamed(pushed, name)
  {
    if pushed != [] {
      var n := |pushed| - 1;
      NamesFindFirst(pushed[..n], name);
      var last := match pushed[n].name case None => [] case Some(x) => [NamedInfo(x, n)];
      IdInConcat(Names(pushed[..n]), last, name);
      assert pushed[n].name.Some? ==> last[1..] == [];
    }
  }

  /** `basic_format_args`: a descriptor and a pointer into the storage. */
  datatype ArgsView = ArgsView(desc: nat, storage: seq<Slot>, offset: nat) {
    predicate HasNamedArgs() {
      desc / NAMED_ARGS_BIT % 2 == 1
    }

    predicate IsPacked() {
      desc / UNPACKED_BIT % 2 == 0
    }

    /** `max_size`: the cast to `int` drops the flag bits with everything above bit 31. */
    function MaxSize(): int {
      if IsPacked() then MAX_PACKED_ARGS
      else
        var low := desc % 0x1_0000_0000;
        if low > MAX_INT then low - 0x1_0000_0000 else low
    }

    /** `get(id)` for an id whose slot exists, or one that is turned down. */
    function Get(id: nat): Option<Slot>
      requires !IsPacked() && (offset + id < |storage| || id >= MaxSize())
    {
      if id < MaxSize() then Some(storage[offset + id]) else None
    }

    /** `get_id(name)` (core.h:1931-1939) */
    method GetId(name: string) returns (id: int)
      requires HasNamedArgs() ==> 0 < offset <= |storage| && storage[offset - 1].NamesSlot?
      ensures id == if HasNamedArgs() then IdIn(storage[offset - 1].names, name) else -1
    {
      if !HasNamedArgs() {
        return -1;
      }
      var names := storage[offset - 1].names;
      for i := 0 to |names|
        invariant IdIn(names, name) == IdIn(names[i..], name)
      {
        if names[i].name == name {
          return names[i].id;
        }
      }
      return -1;
    }
  }

  class DynamicFormatArgStore {
    var data: seq<Slot>
    var namedInfo: seq<NamedInfo>
    ghost var pushed: seq<Entry>

    ghost predicate Valid()
      reads this
    {
      && namedInfo == Names(pushed)
      && data == (if namedInfo == [] then [] else [NamesSlot(namedInfo)]) + Slots(pushed)
    }

    constructor ()
      ensures Valid() && pushed == []
    {
      data, namedInfo, pushed := [], [], [];
    }

    method PushBack(arg: Arg)
      requires Valid()
      modifies this
      ensures Valid() && pushed == old(pushed) + [Entry(None, arg)]
    {
      data := data + [ArgSlot(arg)];
      pushed := pushed + [Entry(None, arg)];
      assert pushed[..|pushed| - 1] == old(pushed);
      assert Slots(pushed) == Slots(old(pushed)) + [ArgSlot(arg)];
    }

    /** `emplace_arg` for a named argument (core.h:1724-1739). */
    method PushBackNamed(name: string, arg: Arg)
      requires Valid()
      modifies this
      ensures Valid() && pushed == old(pushed) + [Entry(Some(name), arg)]
    {
      if namedInfo == [] {
        data := [NamesSlot([])] + data;
      }
      data := data + [ArgSlot(arg)];
      namedInfo := namedInfo + [NamedInfo(name, |data| - 2)];
      data := data[0 := NamesSlot(namedInfo)];
      pushed := pushed + [Entry(Some(name), arg)];
      assert pushed[..|pushed| - 1] == old(pushed);
      assert Slots(pushed) == Slots(old(pushed)) + [ArgSlot(arg)];
    }

    method Clear()
      modifies this
      ensures Valid() && pushed == []
    {
      data, namedInfo, pushed := [], [], [];
    }

    /** The conversion to `basic_format_args` through `get_types` and `data`. */
    function View(): ArgsView
      reads this
    {
      ArgsView(UNPACKED_BIT + |data| + (if namedInfo == [] then 0 else NAMED_ARGS_BIT),
               data, if namedInfo == [] then 0 else 1)
    }

    /** Looking up by position what was pushed at that position. */
    method Get(id: nat) returns (arg: Arg)
      requires Valid() && id < |pushed| && |data| <= MAX_INT
      ensures arg == pushed[id].arg
    {
      ViewBits(|data|, namedInfo != []);
      arg := View().Get(id).value.arg;
    }

    /** Looking up by name the position of the first argument pushed with that name. */
    method GetId(name: string) returns (id: int)
      requires Valid() && |data| <= MAX_INT
      ensures id == FirstNamed(pushed, name)
    {
      ViewBits(|data|, namedInfo != []);
      NamesFindFirst(pushed, name);
      id := View().GetId(name);
    }
  }

  /** The flag bits do not disturb the size or each other. */
  lemma {:induction false} ViewBits(size: nat, named: bool)
    requires size <= MAX_INT
    ensures var v := ArgsView(UNPACKED_BIT + size + (if !named then 0 else NAMED_ARGS_BIT), [], 0);
            !v.IsPacked() && v.HasNamedArgs() == named && v.MaxSize() == size
  {
  }

  /**
   The store refines a list with a name map, over any run: `Replay` is what a sequence of
   calls leaves behind, whatever order named and unnamed ones come in.
   */
  datatype Call = Push(arg: Arg) | PushNamed(name: string, arg: Arg) | ClearAll

  function Replay(calls: seq<Call>): seq<Entry> {
    if calls == [] then []
    else
      var before := Replay(calls[..|calls| - 1]);
      match calls[|calls| - 1]
      case Push(arg) => before + [Entry(None, arg)]
      case PushNamed(name, arg) => before + [Entry(Some(name), arg)]
      case ClearAll => []
  }

  method Run(calls: seq<Call>) returns (store: DynamicFormatArgStore)
    ensures store.Valid() && store.pushed == Replay(calls)
  {
    store := new DynamicFormatArgStore();
    for i := 0 to |calls|
      invariant store.Valid() && fresh(store) && store.pushed == Replay(calls[..i])
    {
      assert calls[..i + 1][..i] == calls[..i];
      match calls[i] {
        case Push(arg) => store.PushBack(arg);
        case PushNamed(name, arg) => store.PushBackNamed(name, arg);
        case ClearAll => store.Clear();
      }
    }
    assert calls[..|calls|] == calls;
  }
}

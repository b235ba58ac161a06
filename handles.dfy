/** A per-process handle table: opaque handle values, minted from a counter
    that starts at 4 and steps by 4, each naming a typed entry. */
module Handles {

  datatype Option<T> = None | Some(value: T)

  /** The kind of object an entry designates. */
  datatype HandleType = ProcessHandle | ThreadHandle | FileHandle | EventHandle | UnknownHandle

  /** One entry: its kind, the object it designates and the access mask it was
      opened with (recorded, never enforced). */
  datatype HandleObject<T> = HandleObject(kind: HandleType, obj: T, accessMask: int)

  /** The first handle value a table hands out, and the step between values. */
  const FirstHandle: int := 4
  const HandleStep: int := 4

  class HandleTable<T> {
    var handles: map<int, HandleObject<T>>
    var nextHandleValue: int

    /** Every entry was minted by this table: a multiple of 4 below the counter. */
    ghost predicate Valid()
      reads this
    {
      nextHandleValue >= FirstHandle && nextHandleValue % HandleStep == 0 &&
      forall h :: h in handles ==> FirstHandle <= h < nextHandleValue && h % HandleStep == 0
    }

    constructor()
      ensures Valid()
      ensures handles == map[] && nextHandleValue == FirstHandle
    {
      handles := map[];
      nextHandleValue := FirstHandle;
    }

    /** `createHandle`: the current counter becomes the new handle, which was not
        in use, and the counter moves on by 4. */
    method CreateHandle(obj: T, kind: HandleType, accessMask: int) returns (h: int)
      requires Valid()
      modifies this
      ensures Valid()
      ensures h == old(nextHandleValue) && nextHandleValue == h + HandleStep
      ensures h !in old(handles)
      ensures forall g :: g in old(handles) ==> g < h
      ensures handles == old(handles)[h := HandleObject(kind, obj, accessMask)]
    {
      h := nextHandleValue;
      nextHandleValue := nextHandleValue + HandleStep;
      handles := handles[h := HandleObject(kind, obj, accessMask)];
    }

    /** `getObject`: the entry of `h`, if there is one. */
    function GetObject(h: int): (r: Option<HandleObject<T>>)
      reads this
      ensures r.Some? <==> h in handles
      ensures r.Some? ==> r.value == handles[h]
    {
      if h in handles then Some(handles[h]) else None
    }

    /** `closeHandle`: removes the entry of `h` and reports whether there was one;
        the counter does not go back. */
    method CloseHandle(h: int) returns (removed: bool)
      requires Valid()
      modifies this
      ensures Valid()
      ensures removed <==> h in old(handles)
      ensures handles == old(handles) - {h}
      ensures nextHandleValue == old(nextHandleValue)
    {
      removed := h in handles;
      handles := handles - {h};
    }
  }

  /** A fresh table hands out 4 and then 8; closing 4 succeeds once and then
      fails, and 8 still designates its object. */
  method HandleLifecycle() returns (first: int, second: int, closedOnce: bool, closedTwice: bool, kept: Option<HandleObject<int>>)
    ensures first == 4 && second == 8
    ensures closedOnce && !closedTwice
    ensures kept == Some(HandleObject(ThreadHandle, 2, 0x1fffff))
  {
    var table := new HandleTable<int>();
    first := table.CreateHandle(1, ProcessHandle, 0x1fffff);
    second := table.CreateHandle(2, ThreadHandle, 0x1fffff);
    closedOnce := table.CloseHandle(first);
    closedTwice := table.CloseHandle(first);
    kept := table.GetObject(second);
  }
}

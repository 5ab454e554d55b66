/** The buffer of internal/agent/buffer.go as the source has it: a window on a backing
    array that is re-sliced on eviction, appended to in place, and truncated on drain.
    The payloads are byte arrays, so that sharing between the buffer, its callers and
    its drained results is part of the model. */
module EventBuffers {
  import opened Common
  import opened EdgeBuffer

  type Slot = Entry<array<Byte>>

  /** What a set of byte arrays holds. */
  ghost function Heap(arrays: set<array<Byte>>): map<array<Byte>, Bytes>
    reads arrays
  {
    map a | a in arrays :: a[..]
  }

  ghost predicate Among(slots: seq<Slot>, arrays: set<array<Byte>>) {
    forall i :: 0 <= i < |slots| ==> slots[i].data in arrays
  }

  ghost function Texts(arrays: seq<array<Byte>>): (r: seq<Bytes>)
    reads arrays
    ensures |r| == |arrays| && forall i :: 0 <= i < |r| ==> r[i] == arrays[i][..]
  {
    seq(|arrays|, i requires 0 <= i < |arrays| reads arrays => arrays[i][..])
  }

  /** Reading the drained arrays gives the drained bytes. */
  lemma TextsOfFresh(arrays: set<array<Byte>>, slots: seq<Slot>, cutoff: int)
    requires Known(Heap(arrays), slots)
    ensures Texts(Data(Fresh(slots, cutoff))) == Data(Fresh(Read(Heap(arrays), slots), cutoff))
    ensures forall a <- Data(Fresh(slots, cutoff)) :: a in arrays
  {
    FreshOfRead(Heap(arrays), slots, cutoff);
  }

  lemma AmongRest(slots: seq<Slot>, arrays: set<array<Byte>>, i: nat)
    requires Among(slots, arrays) && i <= |slots|
    ensures Among(slots[i..], arrays)
  {
  }

  method CopyOf(data: array<Byte>) returns (cp: array<Byte>)
    ensures fresh(cp) && cp[..] == data[..]
  {
    cp := new Byte[data.Length](i requires 0 <= i < data.Length reads data => data[i]);
  }

  class EventBuffer {
    const maxAge: int

    // The slice b.buf: len slots of the backing array, starting at off.
    var store: array<Slot>
    var off: nat
    var len: nat

    /** The payload arrays the window may refer to. */
    ghost var payloads: set<array<Byte>>

    ghost predicate Valid()
      reads this, store
    {
      off + len <= store.Length && Among(store[off..off + len], payloads)
    }

    ghost function Window(): (w: seq<Slot>)
      requires Valid()
      reads this, store
      ensures |w| == len && Among(w, payloads)
    {
      store[off..off + len]
    }

    /** The window as payload bytes and stamps. */
    ghost function Contents(): seq<Entry<Bytes>>
      requires Valid()
      reads this, store, payloads
    {
      Read(Heap(payloads), Window())
    }

    constructor (maxAge: int)
      ensures Valid() && fresh(store) && payloads == {}
      ensures this.maxAge == maxAge && Contents() == []
    {
      this.maxAge := maxAge;
      store := new Slot[0];
      off, len := 0, 0;
      payloads := {};
    }

    /** The index loop of eviction. */
    method CountStale(cutoff: int) returns (i: nat)
      requires Valid()
      ensures i == Stale(Window(), cutoff)
    {
      ghost var w := Window();
      i := 0;
      while i < len && store[off + i].createdAt < cutoff
        invariant i <= len
        invariant i <= Stale(w, cutoff)
      {
        assert w[i] == store[off + i];
        i := i + 1;
      }
      assert i < len ==> w[i] == store[off + i];
    }

    method Reslice(i: nat)
      requires Valid() && i <= len
      modifies this`off, this`len
      ensures Valid() && Window() == old(Window())[i..]
    {
      ghost var rest := Window()[i..];
      AmongRest(Window(), payloads, i);
      off, len := off + i, len - i;
      assert store[off..off + len] == rest;
    }

    /** Re-slices past the leading slots stamped before the cutoff. */
    method Evict(cutoff: int)
      requires Valid()
      modifies this`off, this`len
      ensures Valid()
      ensures Window() == old(Window())[Stale(old(Window()), cutoff)..]
    {
      var i := CountStale(cutoff);
      if i > 0 {
        Reslice(i);
      } else {
        assert Window()[0..] == Window();
      }
    }

    /** Moves the window to a larger array. */
    method Grow()
      requires Valid() && len > 0
      modifies this`store, this`off
      ensures Valid() && fresh(store) && off + len < store.Length
      ensures Window() == old(Window())
    {
      ghost var w := Window();
      var first := store[off];
      var bigger := new Slot[2 * len](_ => first);
      for i := 0 to len
        modifies bigger
        invariant bigger[..i] == w[..i]
      {
        bigger[i] := store[off + i];
      }
      assert bigger[..len] == w[..len] == w;
      store, off := bigger, 0;
    }

    /** A first array for an empty window. */
    method Allocate(e: Slot)
      requires Valid() && len == 0
      modifies this`store, this`off
      ensures Valid() && fresh(store) && off + len < store.Length
    {
      store, off := new Slot[1](_ => e), 0;
    }

    /** Appends where the backing array has room. */
    method AppendInPlace(e: Slot)
      requires Valid() && off + len < store.Length
      modifies this`len, this`payloads, store
      ensures Valid() && payloads == old(payloads) + {e.data}
      ensures Window() == old(Window()) + [e]
    {
      ghost var w := Window();
      store[off + len] := e;
      assert store[off..off + len + 1] == w + [e];
      len := len + 1;
      payloads := payloads + {e.data};
    }

    /** Appends to the window: in place when the backing array has room behind it,
        otherwise after moving the window to a larger array. */
    method Append(e: Slot)
      requires Valid()
      modifies this`store, this`off, this`len, this`payloads, store
      ensures Valid() && (store == old(store) || fresh(store))
      ensures payloads == old(payloads) + {e.data}
      ensures Window() == old(Window()) + [e]
    {
      if off + len == store.Length {
        if len == 0 {
          Allocate(e);
        } else {
          Grow();
        }
      }
      AppendInPlace(e);
    }

    /** Evicts, then appends. */
    method PushSlot(cp: array<Byte>, now: int)
      requires Valid()
      modifies this`store, this`off, this`len, this`payloads, store
      ensures Valid() && (store == old(store) || fresh(store))
      ensures payloads == old(payloads) + {cp}
      ensures Window() == EdgeBuffer.Push(old(Window()), cp, now, maxAge)
    {
      Evict(now - maxAge);
      ghost var rest := Window();
      Append(Entry(cp, now));
      assert Window() == rest + [Entry(cp, now)];
    }

    /** What that makes of the contents. */
    method PushCopy(cp: array<Byte>, now: int)
      requires Valid()
      modifies this`store, this`off, this`len, this`payloads, store
      ensures Valid() && (store == old(store) || fresh(store))
      ensures payloads == old(payloads) + {cp}
      ensures Contents() == EdgeBuffer.Push(old(Contents()), cp[..], now, maxAge)
    {
      ghost var m, w := Heap(payloads), Window();
      PushSlot(cp, now);
      PushedRead(m, Heap(payloads), w, cp, cp[..], now);
    }

    /** push: evicts, copies the caller's bytes, appends the copy. */
    method Push(data: array<Byte>, now: int)
      requires Valid()
      modifies this`store, this`off, this`len, this`payloads, store
      ensures Valid() && (store == old(store) || fresh(store))
      ensures old(payloads) <= payloads && fresh(payloads - old(payloads))
      ensures Contents() == EdgeBuffer.Push(old(Contents()), data[..], now, maxAge)
    {
      var cp := CopyOf(data);
      PushCopy(cp, now);
    }

    /** What a push of a copy makes of the contents. */
    lemma PushedRead(m: map<array<Byte>, Bytes>, m': map<array<Byte>, Bytes>, w: seq<Slot>,
                     cp: array<Byte>, bytes: Bytes, now: int)
      requires Known(m, w) && (forall a <- m :: a in m' && m'[a] == m[a]) && cp in m' && m'[cp] == bytes
      ensures Known(m', EdgeBuffer.Push(w, cp, now, maxAge))
      ensures Read(m', EdgeBuffer.Push(w, cp, now, maxAge)) == EdgeBuffer.Push(Read(m, w), bytes, now, maxAge)
    {
      assert Read(m', w) == Read(m, w);
      PushOfRead(m', w, cp, now, maxAge);
    }

    /** The loop of drain: the payloads stamped after the cutoff. */
    method Collect(cutoff: int) returns (out: seq<array<Byte>>)
      requires Valid()
      ensures out == Data(Fresh(Window(), cutoff))
    {
      ghost var w := Window();
      out := [];
      for i := 0 to len
        invariant out == Data(Fresh(w[..i], cutoff))
      {
        assert w[..i + 1] == w[..i] + [w[i]] && w[i] == store[off + i];
        FreshConcat(w[..i], [w[i]], cutoff);
        if store[off + i].createdAt > cutoff {
          out := out + [store[off + i].data];
        }
      }
      assert w[..len] == w;
    }

    /** The young payloads, read. */
    method Young(cutoff: int) returns (out: seq<array<Byte>>)
      requires Valid()
      ensures Texts(out) == Data(Fresh(Contents(), cutoff))
      ensures forall a <- out :: a in payloads
    {
      out := Collect(cutoff);
      TextsOfFresh(payloads, Window(), cutoff);
    }

    /** drain: collects the young payloads and truncates the window. */
    method Drain(now: int) returns (out: seq<array<Byte>>)
      requires Valid()
      modifies this`len, this`payloads
      ensures Valid() && payloads == {} && Contents() == []
      ensures Texts(out) == EdgeBuffer.Drain(old(Contents()), now, maxAge)
      ensures forall a <- out :: a in old(payloads)
    {
      out := Young(now - maxAge);
      len := 0;
      payloads := {};
    }
  }

  // ------------------------------------------------- isolation from callers

  /** What a client does: push one of its arrays, write into one, or drain. */
  datatype Action =
    | PushFrom(k: nat, now: int)
    | Write(k: nat, i: nat, v: Byte)
    | DrainAt(now: int)

  /** The client's view if nothing were shared: its arrays, the buffer, and all
      payloads drained so far, each as plain values. */
  datatype View = View(callers: seq<Bytes>, held: seq<Entry<Bytes>>, drained: seq<Bytes>)

  function Poke(s: Bytes, i: nat, x: Byte): Bytes
    requires i < |s|
  {
    s[i := x]
  }

  function Act(v: View, a: Action, maxAge: int): View {
    match a
    case PushFrom(k, now) =>
      if k < |v.callers| then v.(held := EdgeBuffer.Push(v.held, v.callers[k], now, maxAge)) else v
    case Write(k, i, x) =>
      if k < |v.callers| && i < |v.callers[k]| then v.(callers := v.callers[k := Poke(v.callers[k], i, x)]) else v
    case DrainAt(now) =>
      v.(held := [], drained := v.drained + EdgeBuffer.Drain(v.held, now, maxAge))
  }

  function Play(v: View, script: seq<Action>, maxAge: int): View {
    if script == [] then v else Act(Play(v, script[..|script| - 1], maxAge), script[|script| - 1], maxAge)
  }

  ghost predicate Apart(b: EventBuffer, callers: seq<array<Byte>>, drained: seq<array<Byte>>)
    reads b, b.store
  {
    b.Valid() &&
    (forall i, j :: 0 <= i < j < |callers| ==> callers[i] != callers[j]) &&
    (forall i :: 0 <= i < |callers| ==> callers[i] !in b.payloads) &&
    (forall j :: 0 <= j < |drained| ==> drained[j] !in b.payloads) &&
    (forall i, j :: 0 <= i < |callers| && 0 <= j < |drained| ==> callers[i] != drained[j])
  }

  /** A caller writes into its own array. */
  method WriteOwn(b: EventBuffer, callers: seq<array<Byte>>, drained: seq<array<Byte>>, k: nat, i: nat, x: Byte)
    requires Apart(b, callers, drained)
    requires k < |callers| && i < callers[k].Length
    modifies callers[k]
    ensures Apart(b, callers, drained) && b.Contents() == old(b.Contents())
    ensures Texts(drained) == old(Texts(drained))
    ensures Texts(callers) == old(Texts(callers))[k := Poke(old(callers[k][..]), i, x)]
  {
    ghost var m := Heap(b.payloads);
    callers[k][i] := x;
    assert Heap(b.payloads) == m;
    assert forall j :: 0 <= j < |drained| ==> drained[j][..] == old(drained[j][..]);
  }

  /** The buffer takes a copy of a caller's array. */
  method PushOwn(b: EventBuffer, callers: seq<array<Byte>>, drained: seq<array<Byte>>, k: nat, now: int)
    requires Apart(b, callers, drained) && k < |callers|
    modifies b, b.store
    ensures b.store == old(b.store) || fresh(b.store)
    ensures Apart(b, callers, drained)
    ensures b.Contents() == EdgeBuffer.Push(old(b.Contents()), callers[k][..], now, b.maxAge)
  {
    b.Push(callers[k], now);
  }

  /** What is drained leaves the buffer. */
  method DrainAll(b: EventBuffer, callers: seq<array<Byte>>, drained: seq<array<Byte>>, now: int)
    returns (drained': seq<array<Byte>>)
    requires Apart(b, callers, drained)
    modifies b
    ensures b.store == old(b.store) && Apart(b, callers, drained') && b.Contents() == []
    ensures Texts(drained') == Texts(drained) + EdgeBuffer.Drain(old(b.Contents()), now, b.maxAge)
  {
    var out := b.Drain(now);
    drained' := drained + out;
    assert Texts(drained') == Texts(drained) + Texts(out);
  }

  method Turn(b: EventBuffer, callers: seq<array<Byte>>, drained: seq<array<Byte>>, a: Action)
    returns (drained': seq<array<Byte>>)
    requires Apart(b, callers, drained)
    modifies b, b.store, callers
    ensures b.store == old(b.store) || fresh(b.store)
    ensures Apart(b, callers, drained')
    ensures View(Texts(callers), b.Contents(), Texts(drained'))
         == Act(View(old(Texts(callers)), old(b.Contents()), old(Texts(drained))), a, b.maxAge)
  {
    drained' := drained;
    match a {
      case PushFrom(k, now) =>
        if k < |callers| {
          PushOwn(b, callers, drained, k, now);
        }
      case Write(k, i, x) =>
        if k < |callers| && i < callers[k].Length {
          WriteOwn(b, callers, drained, k, i, x);
        }
      case DrainAt(now) =>
        drained' := DrainAll(b, callers, drained, now);
    }
  }

  /** Every payload ever drained still holds, at the end of an arbitrary client run,
      the bytes a share-nothing buffer would have returned: no later push, drain or
      write to a caller's array reaches it. */
  method Client(b: EventBuffer, callers: seq<array<Byte>>, script: seq<Action>)
    returns (drained: seq<array<Byte>>)
    requires Apart(b, callers, [])
    modifies b, b.store, callers
    ensures Apart(b, callers, drained)
    ensures View(Texts(callers), b.Contents(), Texts(drained))
         == Play(View(old(Texts(callers)), old(b.Contents()), []), script, b.maxAge)
  {
    drained := [];
    ghost var start := View(Texts(callers), b.Contents(), []);
    for n := 0 to |script|
      invariant b.store == old(b.store) || fresh(b.store)
      invariant Apart(b, callers, drained)
      invariant View(Texts(callers), b.Contents(), Texts(drained)) == Play(start, script[..n], b.maxAge)
    {
      assert script[..n + 1][..n] == script[..n];
      drained := Turn(b, callers, drained, script[n]);
    }
    assert script[..|script|] == script;
  }
}

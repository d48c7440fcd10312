/**
 wp<T> smart pointers over reference-counted objects.  Any number of wp objects point at
 any number of RefBase objects; strong references (sp<T>) are counted per object.
 */
module WeakPtr {
  import opened RefCount
  import opened RefCalls

  /** Between calls, with the bias gone where there is a strong reference. */
  predicate Steady(w: Words) { Settled(w) && BiasGone(w) }

  /** Whoever may take a strong reference finds both blocks in place. */
  lemma InPlace(w: Words, pin: Pin)
    requires Settled(w) && PinHeld(w, pin)
    ensures w.refsDeletes == 0 && (!pin.ByWeak? ==> w.objDeletes == 0)
  {
    SettledBlocks(w);
  }

  /** With a strong reference out, both blocks are in place. */
  lemma HeldInPlace(w: Words)
    requires Settled(w) && w.strongHandles > 0
    ensures w.refsDeletes == 0 && w.objDeletes == 0
  {
    SettledBlocks(w);
  }

  lemma FreshIsSteady(w: Words)
    requires Fresh(w)
    ensures Steady(w)
  {
    InitialBooks(w, Share(Idle));
  }

  /** A RefBase object and its weakref_impl.  Each method demands that the blocks it reads
      have not been deleted. */
  class Counted {
    var w: Words

    constructor ()
      ensures Fresh(w) && Steady(w)
    {
      w := Words(INITIAL_STRONG_VALUE, 0, false, 0, 0, 0, INITIAL_STRONG_VALUE, false, false, 0, 0);
      new;
      FreshIsSteady(w);
    }

    method IncWeak(pin: Pin)
      requires Steady(w) && PinHeld(w, pin) && w.refsDeletes == 0
      requires !pin.ByWeak? ==> w.objDeletes == 0
      modifies this
      ensures Steady(w) && w.taken && w.extended == old(w.extended)
      ensures w.weakHandles == old(w.weakHandles) + 1 && w.strongHandles == old(w.strongHandles)
    {
      CallHandles(w, RefCount.IncWeak(pin), true);
      w := Call(w, RefCount.IncWeak(pin), true);
    }

    /** attemptIncWeak, by one who keeps the weakref_impl in place: it never fails. */
    method AttemptIncWeak(pin: Pin) returns (ok: bool)
      requires Steady(w) && PinHeld(w, pin) && !pin.ByRaw? && w.refsDeletes == 0
      modifies this
      ensures ok && Steady(w) && w.extended == old(w.extended)
      ensures w.weakHandles == old(w.weakHandles) + 1 && w.strongHandles == old(w.strongHandles)
    {
      var before := w.weakHandles;
      CallHandles(w, RefCount.AttemptIncWeak(pin), true);
      w := Call(w, RefCount.AttemptIncWeak(pin), true);
      ok := w.weakHandles > before;
    }

    method DecWeak()
      requires Steady(w) && w.weakHandles > 0 && w.refsDeletes == 0
      modifies this
      ensures Steady(w) && w.taken == old(w.taken) && w.extended == old(w.extended)
      ensures w.weakHandles == old(w.weakHandles) - 1 && w.strongHandles == old(w.strongHandles)
    {
      CallHandles(w, RefCount.DecWeak, true);
      w := Call(w, RefCount.DecWeak, true);
    }

    method IncStrong(pin: Pin)
      requires Steady(w) && MayIncStrong(w, pin, false) && w.objDeletes == 0
      requires w.strongHandles + 1 < INITIAL_STRONG_VALUE
      modifies this
      ensures Steady(w) && w.extended == old(w.extended)
      ensures w.weakHandles == old(w.weakHandles) && w.strongHandles == old(w.strongHandles) + 1
      ensures w.objDeletes == 0 && w.refsDeletes == 0
    {
      CallHandles(w, RefCount.IncStrong(pin), true);
      w := Call(w, RefCount.IncStrong(pin), true);
      HeldInPlace(w);
    }

    method DecStrong()
      requires Steady(w) && w.strongHandles > 0 && w.objDeletes == 0
      modifies this
      ensures Steady(w) && w.taken == old(w.taken) && w.extended == old(w.extended)
      ensures w.weakHandles == old(w.weakHandles) && w.strongHandles == old(w.strongHandles) - 1 && w.removals == 1
    {
      CallHandles(w, RefCount.DecStrong, true);
      w := Call(w, RefCount.DecStrong, true);
    }

    /** forceIncStrong: also from zero, on an object of extended lifetime. */
    method ForceIncStrong(pin: Pin)
      requires Steady(w) && MayIncStrong(w, pin, true) && w.objDeletes == 0
      requires w.strongHandles + 1 < INITIAL_STRONG_VALUE
      modifies this
      ensures Steady(w) && w.extended == old(w.extended)
      ensures w.weakHandles == old(w.weakHandles) && w.strongHandles == old(w.strongHandles) + 1
    {
      CallHandles(w, RefCount.ForceIncStrong(pin), true);
      w := Call(w, RefCount.ForceIncStrong(pin), true);
    }

    method ExtendObjectLifetime(pin: Pin)
      requires Steady(w) && PinHeld(w, pin) && !pin.ByWeak? && w.objDeletes == 0
      modifies this
      ensures Steady(w) && w.extended
      ensures w.weakHandles == old(w.weakHandles) && w.strongHandles == old(w.strongHandles)
    {
      CallHandles(w, RefCount.ExtendLifetime(pin), true);
      w := Call(w, RefCount.ExtendLifetime(pin), true);
    }

    /** attemptIncStrong: it succeeds if there is a strong reference; without one, if the
        object agrees, or in the strong lifetime if there never was one. */
    method AttemptIncStrong(pin: Pin, agree: bool) returns (ok: bool)
      requires Steady(w) && PinHeld(w, pin) && w.refsDeletes == 0
      requires w.strongHandles + 1 < INITIAL_STRONG_VALUE
      modifies this
      ensures ok <==> old(w.strongHandles) > 0 || if old(w.extended) then agree else old(w.removals) == 0
      ensures Steady(w) && w.extended == old(w.extended)
      ensures w.weakHandles == old(w.weakHandles)
      ensures w.strongHandles == old(w.strongHandles) + if ok then 1 else 0
    {
      var before := w.strongHandles;
      SettledBlocks(w);
      CallHandles(w, RefCount.AttemptIncStrong(pin), agree);
      w := Call(w, RefCount.AttemptIncStrong(pin), agree);
      ok := w.strongHandles > before;
    }
  }

  ghost function PointingAt(all: set<Wp>, c: Counted): set<Wp>
    reads all
  {
    set p | p in all && p.ptr == c
  }

  /** The weak handles on the object are the wp objects that point at it. */
  ghost predicate Sound(all: set<Wp>, c: Counted)
    reads all, c
  {
    Steady(c.w) && c.w.weakHandles == |PointingAt(all, c)|
  }

  /** The same with one more for a wp that is about to point at it. */
  ghost predicate Ahead(all: set<Wp>, c: Counted, next: Counted?)
    reads all, c
  {
    Steady(c.w) && c.w.weakHandles == |PointingAt(all, c)| + if c == next then 1 else 0
  }

  ghost predicate Family(all: set<Wp>, objs: set<Counted>)
    reads all, objs
  {
    (forall p :: p in all && p.ptr != null ==> p.ptr in objs) && forall c :: c in objs ==> Sound(all, c)
  }

  /** Two sets of pointers that differ in p at most. */
  lemma Repointed(before: set<Wp>, after: set<Wp>, p: Wp)
    requires before - {p} == after - {p}
    ensures |after| == |before| - (if p in before then 1 else 0) + (if p in after then 1 else 0)
  {
    assert p in before ==> before == before - {p} + {p};
    assert p in after ==> after == after - {p} + {p};
    assert p !in before ==> before == before - {p};
    assert p !in after ==> after == after - {p};
  }

  /** Adding a new wp to the family, or taking an existing one out. */
  lemma Extended(all: set<Wp>, p: Wp, c: Counted)
    requires p !in all
    ensures |PointingAt(all + {p}, c)| == |PointingAt(all, c)| + if p.ptr == c then 1 else 0
  {
    assert PointingAt(all + {p}, c) == PointingAt(all, c) + if p.ptr == c then {p} else {};
  }

  /** What the family says about memory: the counters are the holders, and the blocks are
      deleted once, at the moment the last holder that keeps them leaves. */
  lemma FamilyBlocks(all: set<Wp>, objs: set<Counted>, c: Counted)
    requires Family(all, objs) && c in objs
    ensures c.w.weak == c.w.strongHandles + |PointingAt(all, c)|
    ensures c.w.strong == c.w.strongHandles + (if c.w.removals == 0 then INITIAL_STRONG_VALUE else 0)
    ensures c.w.refsDeletes == (if c.w.taken && c.w.strongHandles == 0 && PointingAt(all, c) == {} then 1 else 0)
    ensures c.w.objDeletes ==
              (if c.w.refsDeletes == 1 || (!c.w.extended && c.w.removals == 1 && c.w.strongHandles == 0) then 1 else 0)
  {
    SettledBlocks(c.w);
  }

  // ---------- strong references and lifetimes, amid any weak pointers ----------

  /** incStrong on a member of the family, from a strong reference or a plain pointer. */
  method TakeStrong(c: Counted, pin: Pin, ghost all: set<Wp>, ghost objs: set<Counted>)
    requires Family(all, objs) && c in objs && MayIncStrong(c.w, pin, false)
    requires c.w.strongHandles + 1 < INITIAL_STRONG_VALUE
    modifies c
    ensures Family(all, objs) && c.w.strongHandles == old(c.w.strongHandles) + 1
    ensures c.w.objDeletes == 0 && c.w.refsDeletes == 0
  {
    InPlace(c.w, pin);
    c.IncStrong(pin);
  }

  /** decStrong by one who holds a strong reference: the object goes with the last one, in
      the extended lifetime only once no weak pointer is left either. */
  method GiveStrong(c: Counted, ghost all: set<Wp>, ghost objs: set<Counted>)
    requires Family(all, objs) && c in objs && c.w.strongHandles > 0
    modifies c
    ensures Family(all, objs) && c.w.strongHandles == old(c.w.strongHandles) - 1
    ensures old(c.w.objDeletes) == 0
    ensures c.w.objDeletes == 1 <==>
              c.w.strongHandles == 0 && (!c.w.extended || PointingAt(all, c) == {})
    ensures c.w.refsDeletes == 1 <==> c.w.strongHandles == 0 && PointingAt(all, c) == {}
  {
    SettledBlocks(c.w);
    c.DecStrong();
    SettledBlocks(c.w);
  }

  method Extend(c: Counted, pin: Pin, ghost all: set<Wp>, ghost objs: set<Counted>)
    requires Family(all, objs) && c in objs && PinHeld(c.w, pin) && !pin.ByWeak?
    modifies c
    ensures Family(all, objs) && c.w.extended && c.w.strongHandles == old(c.w.strongHandles)
  {
    SettledBlocks(c.w);
    c.ExtendObjectLifetime(pin);
  }

  class Wp {
    /** m_ptr; the object's weakref_impl, m_refs, is reached through it. */
    var ptr: Counted?

    /** From a plain pointer or from an sp, whatever keeps the object in place meanwhile. */
    constructor (other: Counted?, pin: Pin, ghost all: set<Wp>, ghost objs: set<Counted>)
      requires Family(all, objs)
      requires other != null ==> other in objs && PinHeld(other.w, pin) && !pin.ByWeak?
      modifies objs
      ensures ptr == other && Family(all + {this}, objs)
      ensures forall p :: p in all ==> p.ptr == old(p.ptr)
      ensures forall c :: c in objs && c != other ==> c.w == old(c.w)
      ensures forall c :: c in objs ==> c.w.strongHandles == old(c.w.strongHandles)
    {
      ptr := other;
      new;
      if ptr != null {
        InPlace(ptr.w, pin);
        ptr.IncWeak(pin);
      }
      forall c | c in objs { Extended(all, this, c); }
    }

    constructor FromWp(other: Wp, ghost all: set<Wp>, ghost objs: set<Counted>)
      requires Family(all, objs) && other in all
      modifies objs
      ensures ptr == other.ptr && Family(all + {this}, objs)
      ensures forall p :: p in all ==> p.ptr == old(p.ptr)
      ensures forall c :: c in objs && c != ptr ==> c.w == old(c.w)
      ensures forall c :: c in objs ==> c.w.strongHandles == old(c.w.strongHandles)
    {
      ptr := other.ptr;
      new;
      if ptr != null {
        assert other in PointingAt(all, ptr);
        SettledBlocks(ptr.w);
        ptr.IncWeak(ByWeak);
      }
      forall c | c in objs { Extended(all, this, c); }
    }

    /** ~wp: afterwards the wp no longer belongs to the family. */
    method Destroy(ghost all: set<Wp>, ghost objs: set<Counted>)
      requires Family(all, objs) && this in all
      modifies objs
      ensures Family(all - {this}, objs)
      ensures forall c :: c in objs && c != ptr ==> c.w == old(c.w)
      ensures forall c :: c in objs ==> c.w.strongHandles == old(c.w.strongHandles)
    {
      if ptr != null {
        assert this in PointingAt(all, ptr);
        SettledBlocks(ptr.w);
        ptr.DecWeak();
      }
      assert all == all - {this} + {this};
      forall c | c in objs { Extended(all - {this}, this, c); }
    }

    /** From the object pointed at to `next`, which has a weak reference for it already. */
    method Repoint(next: Counted?, ghost all: set<Wp>, ghost objs: set<Counted>)
      requires this in all && (next != null ==> next in objs) && forall p :: p in all && p.ptr != null ==> p.ptr in objs
      requires forall c :: c in objs ==> Ahead(all, c, next)
      modifies this, objs
      ensures ptr == next && Family(all, objs)
      ensures forall p :: p in all && p != this ==> p.ptr == old(p.ptr)
      ensures forall c :: c in objs && c != old(ptr) ==> c.w == old(c.w)
      ensures forall c :: c in objs ==> c.w.strongHandles == old(c.w.strongHandles)
    {
      if ptr != null {
        assert this in PointingAt(all, ptr) && Ahead(all, ptr, next);
        SettledBlocks(ptr.w);
        ptr.DecWeak();
      }
      ptr := next;
      forall c | c in objs ensures Sound(all, c) {
        assert old(Ahead(all, c, next));
        Repointed(old(PointingAt(all, c)), PointingAt(all, c), this);
      }
    }

    method Clear(ghost all: set<Wp>, ghost objs: set<Counted>)
      requires Family(all, objs) && this in all
      modifies this, objs
      ensures ptr == null && Family(all, objs)
      ensures forall p :: p in all && p != this ==> p.ptr == old(p.ptr)
      ensures forall c :: c in objs && c != old(ptr) ==> c.w == old(c.w)
      ensures forall c :: c in objs ==> c.w.strongHandles == old(c.w.strongHandles)
    {
      assert forall c :: c in objs ==> Sound(all, c) ==> Ahead(all, c, null);
      Repoint(null, all, objs);
    }

    /** operator=, `other` possibly being this very wp. */
    method Assign(other: Wp, ghost all: set<Wp>, ghost objs: set<Counted>)
      requires Family(all, objs) && this in all && other in all
      modifies this, objs
      ensures ptr == old(other.ptr) && Family(all, objs)
      ensures forall p :: p in all && p != this ==> p.ptr == old(p.ptr)
      ensures forall c :: c in objs && c != old(ptr) && c != ptr ==> c.w == old(c.w)
      ensures forall c :: c in objs ==> c.w.strongHandles == old(c.w.strongHandles)
    {
      var otherPtr := other.ptr;
      if otherPtr != null {
        assert other in PointingAt(all, otherPtr) && Sound(all, otherPtr);
        SettledBlocks(otherPtr.w);
        otherPtr.IncWeak(ByWeak);
      }
      forall c | c in objs ensures Ahead(all, c, otherPtr) { assert old(Sound(all, c)); }
      Repoint(otherPtr, all, objs);
    }

    /** operator= from a plain pointer or from an sp, which keeps its object alive. */
    method AssignRaw(other: Counted?, pin: Pin, ghost all: set<Wp>, ghost objs: set<Counted>)
      requires Family(all, objs) && this in all
      requires other != null ==> other in objs && PinHeld(other.w, pin) && !pin.ByWeak?
      modifies this, objs
      ensures ptr == other && Family(all, objs)
      ensures forall p :: p in all && p != this ==> p.ptr == old(p.ptr)
      ensures forall c :: c in objs && c != old(ptr) && c != ptr ==> c.w == old(c.w)
      ensures forall c :: c in objs ==> c.w.strongHandles == old(c.w.strongHandles)
    {
      if other != null {
        assert Sound(all, other);
        InPlace(other.w, pin);
        other.IncWeak(pin);
      }
      forall c | c in objs ensures Ahead(all, c, other) { assert old(Sound(all, c)); }
      Repoint(other, all, objs);
    }

    /** A successful promotion gives the caller one strong reference more and a living
        object; a failed one means there is nothing left to promote, or a refusal. */
    method Promote(agree: bool, ghost all: set<Wp>, ghost objs: set<Counted>) returns (result: Counted?)
      requires Family(all, objs) && this in all
      requires ptr != null ==> ptr.w.strongHandles + 1 < INITIAL_STRONG_VALUE
      modifies objs
      ensures Family(all, objs)
      ensures result != null ==> result == ptr && result.w.objDeletes == 0
      ensures result != null <==>
                ptr != null &&
                (old(ptr.w.strongHandles) > 0 || if old(ptr.w.extended) then agree else old(ptr.w.removals) == 0)
      ensures ptr != null ==>
                ptr.w.strongHandles == old(ptr.w.strongHandles) + if result != null then 1 else 0
      ensures result == null && ptr != null && !ptr.w.extended ==> old(ptr.w.objDeletes) == 1
      ensures forall c :: c in objs && c != ptr ==> c.w == old(c.w)
    {
      result := null;
      if ptr != null {
        assert this in PointingAt(all, ptr);
        SettledBlocks(ptr.w);
        var ok := ptr.AttemptIncStrong(ByWeak, agree);
        SettledBlocks(ptr.w);
        if ok { result := ptr; }
      }
    }
  }
}

/**
 * WeakPtr.h: a non-owning pointer to a Trackable, registered with its target while it points to one so
 * that the target can null it on destruction. Trackable.cc is not part of this model: the target's
 * intrusive list of references is modelled by the set of references registered with it, and the
 * list links of the reference itself are left out.
 */
module Weak {
  class Trackable {
    /** The references currently registered with this object. */
    ghost var weakRefs: set<WeakPtr>

    constructor ()
      ensures weakRefs == {}
    {
      weakRefs := {};
    }

    method AddWeakRef(r: WeakPtr)
      modifies this`weakRefs
      ensures weakRefs == old(weakRefs) + {r}
    {
      weakRefs := weakRefs + {r};
    }

    method RemoveWeakRef(r: WeakPtr)
      modifies this`weakRefs
      ensures weakRefs == old(weakRefs) - {r}
    {
      weakRefs := weakRefs - {r};
    }
  }

  class WeakPtr {
    var ptr: Trackable?

    /** The class invariant: a reference pointing to a target is registered with it. */
    ghost predicate Registered()
      reads this, ptr
    {
      ptr != null ==> this in ptr.weakRefs
    }

    /** The default constructor: null, registered nowhere. */
    constructor ()
      ensures ptr == null && Registered()
    {
      ptr := null;
    }

    /** From a raw pointer: registered with it when it is not null. */
    constructor FromPointer(p: Trackable?)
      modifies p
      ensures ptr == p && Registered()
      ensures p != null ==> p.weakRefs == old(p.weakRefs) + {this}
    {
      ptr := p;
      new;
      if p != null {
        p.AddWeakRef(this);
      }
    }

    /** The copy constructor: the same target, with a second registration. */
    constructor Copy(other: WeakPtr)
      modifies other.ptr
      ensures ptr == other.ptr && Registered()
      ensures ptr != null ==> ptr.weakRefs == old(other.ptr.weakRefs) + {this}
    {
      ptr := other.ptr;
      new;
      if ptr != null {
        ptr.AddWeakRef(this);
      }
    }

    /** The move constructor: the source is invalidated, and the new reference takes its target. */
    constructor Move(other: WeakPtr)
      modifies other, other.ptr
      ensures ptr == old(other.ptr) && other.ptr == null && Registered()
      ensures ptr != null ==> ptr.weakRefs == old(other.ptr.weakRefs) - {other} + {this}
    {
      ptr := other.ptr;
      new;
      other.Invalidate();
      if ptr != null {
        ptr.AddWeakRef(this);
      }
    }

    /** Deregister from the old target, then point to `p` and register with it. */
    method Set(p: Trackable?)
      modifies this, ptr, p
      ensures ptr == p && Registered()
      ensures p != null ==> p.weakRefs == old(p.weakRefs) + {this}
      ensures old(ptr) != null && old(ptr) != p ==> old(ptr).weakRefs == old(ptr.weakRefs) - {this}
    {
      if ptr != null {
        ptr.RemoveWeakRef(this);
      }
      ptr := p;
      if ptr != null {
        ptr.AddWeakRef(this);
      }
    }

    /** Deregister and become null; a null reference is left as it is. The destructor does the same. */
    method Invalidate()
      modifies this, ptr
      ensures ptr == null && Registered()
      ensures old(ptr) != null ==> old(ptr).weakRefs == old(ptr.weakRefs) - {this}
    {
      if ptr != null {
        ptr.RemoveWeakRef(this);
      }
      ptr := null;
    }

    function IsValid(): (r: bool)
      reads this, ptr
      ensures r <==> ptr != null
    {
      ptr != null
    }

    /** Assignment from another reference: Set to its target. */
    method Assign(other: WeakPtr)
      modifies this, ptr, other.ptr
      ensures ptr == old(other.ptr) && Registered() && Equals(other)
      ensures ptr != null ==> ptr.weakRefs == old(other.ptr.weakRefs) + {this}
      ensures old(ptr) != null && old(ptr) != old(other.ptr) ==> old(ptr).weakRefs == old(ptr.weakRefs) - {this}
    {
      Set(other.ptr);
    }

    /** Two references are equal when they point to the same target, whatever objects they are. */
    function Equals(other: WeakPtr): (r: bool)
      reads this, other
      ensures r <==> ptr == other.ptr
    {
      ptr == other.ptr
    }
  }
}

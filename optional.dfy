/**
 * Optional<T>: a value slot that is either engaged (holds a T) or disengaged
 * (HomeWorks2dSemester/Optional/Optional.cpp). The union `storage` is a field of type Option<T>:
 * it holds a value exactly while `engaged` is set.
 */
module OptionalValue {
  import opened Common

  /** std::logic_error("No value"), thrown by `operator*` and `operator->` on a disengaged optional. */
  datatype NoValue = NoValue

  class Optional<T> {
    var engaged: bool
    var storage: Option<T>

    predicate Valid()
      reads this
    {
      engaged == storage.Some?
    }

    /** The default constructor and the one from `nullopt`. */
    constructor Disengaged()
      ensures Valid() && !engaged
    {
      engaged := false;
      storage := None;
    }

    /** Construction from a value (also what make_optional does). */
    constructor Of(val: T)
      ensures Valid() && engaged && storage == Some(val)
    {
      engaged := true;
      storage := Some(val);
    }

    /** The copy constructor: the source is left as it was. */
    constructor CopyOf(rhs: Optional<T>)
      requires rhs.Valid()
      ensures Valid() && engaged == rhs.engaged && storage == rhs.storage
    {
      engaged := rhs.engaged;
      storage := if rhs.engaged then rhs.storage else None;
    }

    /** The move constructor: the value moves over and the source becomes disengaged. */
    constructor MoveFrom(rhs: Optional<T>)
      requires rhs.Valid()
      modifies rhs
      ensures Valid() && engaged == old(rhs.engaged) && storage == old(rhs.storage)
      ensures rhs.Valid() && !rhs.engaged
    {
      engaged := rhs.engaged;
      storage := if rhs.engaged then rhs.storage else None;
      if rhs.engaged {
        rhs.engaged := false;
        rhs.storage := None;
      }
    }

    /** Ends the lifetime of a held value; the destructor is this call. */
    method Destroy()
      requires Valid()
      modifies this
      ensures Valid() && !engaged
    {
      if engaged {
        storage := None;
        engaged := false;
      }
    }

    /** Copy assignment through a temporary copy of `rhs`; a self-assignment changes nothing. */
    method CopyAssign(rhs: Optional<T>)
      requires Valid() && rhs.Valid()
      modifies this
      ensures Valid() && engaged == old(rhs.engaged) && storage == old(rhs.storage)
      ensures rhs == this ==> engaged == old(engaged) && storage == old(storage)
    {
      if this != rhs {
        var temp := new Optional.CopyOf(rhs);
        Destroy();
        engaged := temp.engaged;
        if temp.engaged {
          storage := temp.storage;
          temp.engaged := false;
          temp.storage := None;
        }
      }
    }

    /** Move assignment: the value moves over and `rhs` becomes disengaged, unless it is this object. */
    method MoveAssign(rhs: Optional<T>)
      requires Valid() && rhs.Valid()
      modifies this, rhs
      ensures Valid() && engaged == old(rhs.engaged) && storage == old(rhs.storage)
      ensures rhs != this ==> rhs.Valid() && !rhs.engaged
      ensures rhs == this ==> engaged == old(engaged) && storage == old(storage)
    {
      if this != rhs {
        Destroy();
        engaged := rhs.engaged;
        if rhs.engaged {
          storage := rhs.storage;
          rhs.engaged := false;
          rhs.storage := None;
        }
      }
    }

    /** `has_value()`. */
    function HasValue(): (b: bool)
      requires Valid()
      reads this
      ensures b <==> storage.Some?
    {
      engaged
    }

    /** `explicit operator bool`, which always agrees with `has_value()`. */
    function AsBool(): (b: bool)
      requires Valid()
      reads this
      ensures b == HasValue()
    {
      engaged
    }

    /** `operator*` and `operator->`: the held value, or logic_error when disengaged. */
    function Deref(): (r: Result<T, NoValue>)
      requires Valid()
      reads this
      ensures r.Ok? <==> HasValue()
      ensures r.Ok? ==> storage == Some(r.value)
    {
      if !engaged then Err(NoValue) else Ok(storage.value)
    }

    /** Both `value_or` overloads: the held value if engaged, else the default. */
    function ValueOr(default: T): (r: T)
      requires Valid()
      reads this
      ensures HasValue() ==> Deref() == Ok(r)
      ensures !HasValue() ==> r == default
    {
      if engaged then storage.value else default
    }
  }
}

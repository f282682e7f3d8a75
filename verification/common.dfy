/** Values shared by both OData data handlers and the admin service: optional values,
    the faults an operation can end with, and a failure-compatible result. */
module Common {

  /** A Java reference that may be null. */
  datatype Option<+T> = None | Some(value: T) {
    function GetOr(default: T): T {
      match this
      case Some(v) => v
      case None => default
    }
  }

  /** The ways an operation of the handlers ends abnormally. */
  datatype Fault =
    /** ODataServiceFault, the handlers' checked exception. */
    | ServiceFault(message: string)
    /** ODataApplicationException carrying HTTP status 400 (BAD_REQUEST). */
    | BadRequest(message: string)
    /** An unchecked Java exception (null dereference, index out of bounds, unknown enum name). */
    | RuntimeFault(message: string)

  datatype Result<+T> = Ok(value: T) | Err(fault: Fault) {
    predicate IsFailure() {
      Err?
    }

    function PropagateFailure<U>(): Result<U>
      requires Err?
    {
      Err(fault)
    }

    function Extract(): T
      requires Ok?
    {
      value
    }
  }

  /** `map.get(key)`: the value, or null for an absent key. */
  function Lookup<K, V>(m: map<K, V>, key: K): (r: Option<V>)
    ensures r.Some? <==> key in m
    ensures r.Some? ==> r.value == m[key]
  {
    if key in m then Some(m[key]) else None
  }

  /** The largest Java `int`, Integer.MAX_VALUE. */
  const IntMax: int := 0x7FFF_FFFF
  /** The smallest Java `int`, Integer.MIN_VALUE. */
  const IntMin: int := -0x8000_0000

  predicate IsInt32(n: int) {
    IntMin <= n <= IntMax
  }

  /** Java `int` arithmetic: the mathematical value reduced into [IntMin, IntMax] modulo 2^32. */
  function Wrap32(n: int): (r: int)
    ensures IsInt32(r)
    ensures (r - n) % 0x1_0000_0000 == 0
    ensures IsInt32(n) ==> r == n
  {
    var m := (n - IntMin) % 0x1_0000_0000;
    m + IntMin
  }
}

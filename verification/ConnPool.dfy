/** The pool of backend connections: a channel of fixed capacity, filled by dialling. */
module ConnPool {
  import opened Wrappers

  type Conn = nat

  /** A send to the channel would not block. */
  predicate Room(capacity: nat, pool: seq<Conn>)
  {
    |pool| < capacity
  }

  class Pool {
    const capacity: nat
    var pool: seq<Conn>
    ghost var closed: seq<Conn>

    ghost predicate Valid()
      reads this
    {
      |pool| <= capacity
    }

    constructor (capacity: nat)
      ensures Valid() && this.capacity == capacity && pool == [] && closed == []
    {
      this.capacity := capacity;
      pool, closed := [], [];
    }

    /** NewConnPool: all connections are dialled first; the first failure is the pool's. */
    static method New(size: nat, dial: nat -> Result<Conn, string>) returns (r: Result<Pool, string>)
      ensures r.Ok? <==> forall i :: 0 <= i < size ==> dial(i).Ok?
      ensures r.Ok? ==>
                && fresh(r.value) && r.value.Valid() && r.value.capacity == size == |r.value.pool|
                && r.value.closed == []
                && forall i :: 0 <= i < size ==> dial(i) == Ok(r.value.pool[i])
      ensures r.Err? ==>
                exists i :: 0 <= i < size && dial(i) == Err(r.error) && forall j :: 0 <= j < i ==> dial(j).Ok?
    {
      var cp := new Pool(size);
      for i := 0 to size
        invariant fresh(cp) && cp.capacity == size && |cp.pool| == i && cp.closed == []
        invariant forall j :: 0 <= j < i ==> dial(j) == Ok(cp.pool[j])
      {
        var dialled := dial(i);
        if dialled.Err? {
          return Err(dialled.error);
        }
        cp.pool := cp.pool + [dialled.value];
      }
      return Ok(cp);
    }

    /** A receive, so it blocks while the pool is empty. */
    method Get() returns (conn: Conn)
      requires Valid() && pool != []
      modifies this
      ensures Valid() && [conn] + pool == old(pool) && closed == old(closed)
    {
      conn := pool[0];
      pool := pool[1..];
    }

    /** A send that does not block: without room the connection is closed instead. */
    method Return(conn: Conn)
      requires Valid()
      modifies this
      ensures Valid()
      ensures if |old(pool)| < capacity then pool == old(pool) + [conn] && closed == old(closed)
              else pool == old(pool) && closed == old(closed) + [conn]
    {
      if |pool| < capacity {
        pool := pool + [conn];
      } else {
        closed := closed + [conn];
      }
    }
  }
}

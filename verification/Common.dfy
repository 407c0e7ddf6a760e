/** Small shared vocabulary: optional values, results, and counting over the
    goroutine table of a state machine. */
module Common {

  datatype Option<+T> = None | Some(value: T)

  datatype Result<+T, +E> = Ok(value: T) | Err(error: E)

  type Byte = b: int | 0 <= b < 256

  /** The goroutines whose program counter satisfies `at`. */
  ghost function Where<V(!new)>(procs: map<nat, V>, at: V -> bool): set<nat> {
    set p | p in procs && at(procs[p])
  }

  ghost function Count<V(!new)>(procs: map<nat, V>, at: V -> bool): nat {
    |Where(procs, at)|
  }

  /** Moving one goroutine changes the count by what it left and what it reached. */
  lemma CountMove<V(!new)>(procs: map<nat, V>, p: nat, pc: V, at: V -> bool)
    ensures Count(procs[p := pc], at)
         == Count(procs, at) + (if at(pc) then 1 else 0) - (if p in procs && at(procs[p]) then 1 else 0)
  {
    var others := Where(procs, at) - {p};
    assert Where(procs, at) == if p in procs && at(procs[p]) then others + {p} else others;
    assert Where(procs[p := pc], at) == if at(pc) then others + {p} else others;
  }

  /** As many goroutines as are known to be at `at` are counted. */
  lemma CountAtLeast<V(!new)>(procs: map<nat, V>, some: set<nat>, at: V -> bool)
    requires forall p :: p in some ==> p in procs && at(procs[p])
    ensures Count(procs, at) >= |some|
  {
    SubsetSize(some, Where(procs, at));
  }

  lemma SubsetSize<T>(a: set<T>, b: set<T>)
    requires a <= b
    ensures |a| <= |b|
  {
    assert b == a + (b - a);
  }
}

/** Linear feedback registers in the abstract: a register that is stepped a fixed number of
    times after each symbol is added to it.  Nothing here knows what a register is made of. */
module LinearRegister {

  /** One step, the addition of registers, and how a symbol is placed into the register. */
  datatype Machine<!R, !B> = Machine(step: R -> R, add: (R, R) -> R, zero: R, place: B -> R, blank: B)

  function Shifted<R, B>(m: Machine<R, B>, n: nat, r: R): R {
    if n == 0 then r else m.step(Shifted(m, n - 1, r))
  }

  /** Eight steps per symbol: a symbol is a byte. */
  function Fed<R, B>(m: Machine<R, B>, r: R, symbol: B): R {
    Shifted(m, 8, m.add(r, m.place(symbol)))
  }

  /** The register after all of `data`, starting from zero. */
  function Checksum<R, B>(m: Machine<R, B>, data: seq<B>): R {
    if data == [] then m.zero else Fed(m, Checksum(m, data[..|data| - 1]), data[|data| - 1])
  }

  /** Registers form a group in which every element is its own inverse; one step is additive
      and sends only zero to zero; only the blank symbol is placed as zero. */
  ghost predicate Linear<R(!new), B(!new)>(m: Machine<R, B>) {
    && (forall x, y :: m.step(m.add(x, y)) == m.add(m.step(x), m.step(y)))
    && (forall x :: m.step(x) == m.zero <==> x == m.zero)
    && (forall x, y :: m.add(x, y) == m.zero <==> x == y)
    && (forall x :: m.add(x, m.zero) == x && m.add(m.zero, x) == x)
    && (forall b :: m.place(b) == m.zero <==> b == m.blank)
  }

  lemma {:induction false} ShiftedAdditive<R(!new), B(!new)>(m: Machine<R, B>, n: nat, x: R, y: R)
    requires Linear(m)
    ensures Shifted(m, n, m.add(x, y)) == m.add(Shifted(m, n, x), Shifted(m, n, y))
  {
    if n > 0 {
      ShiftedAdditive(m, n - 1, x, y);
    }
  }

  lemma {:induction false} ShiftedKernel<R(!new), B(!new)>(m: Machine<R, B>, n: nat, x: R)
    requires Linear(m)
    ensures Shifted(m, n, x) == m.zero <==> x == m.zero
  {
    if n > 0 {
      ShiftedKernel(m, n - 1, x);
    }
  }

  /** `c` is the symbol-wise sum of `a` and `b`, as far as the register can tell. */
  ghost predicate SumsTo<R(!new), B>(m: Machine<R, B>, a: seq<B>, b: seq<B>, c: seq<B>) {
    && |a| == |b| == |c|
    && forall i, x, y | 0 <= i < |a| ::
         m.add(m.add(x, y), m.place(c[i])) == m.add(m.add(x, m.place(a[i])), m.add(y, m.place(b[i])))
  }

  lemma {:induction false} ChecksumAdditive<R(!new), B(!new)>(m: Machine<R, B>, a: seq<B>, b: seq<B>, c: seq<B>)
    requires Linear(m) && SumsTo(m, a, b, c)
    ensures Checksum(m, c) == m.add(Checksum(m, a), Checksum(m, b))
    decreases |a|
  {
    if a != [] {
      var n := |a| - 1;
      ChecksumAdditive(m, a[..n], b[..n], c[..n]);
      var x, y := Checksum(m, a[..n]), Checksum(m, b[..n]);
      ShiftedAdditive(m, 8, m.add(x, m.place(a[n])), m.add(y, m.place(b[n])));
    }
  }

  lemma {:induction false} BlanksGiveZero<R(!new), B(!new)>(m: Machine<R, B>, d: seq<B>)
    requires Linear(m) && forall i | 0 <= i < |d| :: d[i] == m.blank
    ensures Checksum(m, d) == m.zero
    decreases |d|
  {
    if d != [] {
      BlanksGiveZero(m, d[..|d| - 1]);
      ShiftedKernel(m, 8, m.zero);
    }
  }

  /** A symbol that eight steps bring to the place of `symbol`: the low half of a register. */
  ghost predicate EntersFrom<R(!new), B(!new)>(m: Machine<R, B>, low: B -> R) {
    && (forall b :: Shifted(m, 8, low(b)) == m.place(b))
    && (forall b, c :: m.add(m.place(b), low(c)) == m.zero <==> b == m.blank && c == m.blank)
  }

  /** Two symbols in a row bring a register to zero exactly when what they enter is the register. */
  lemma TailKernel<R(!new), B(!new)>(m: Machine<R, B>, low: B -> R, r: R, first: B, second: B)
    requires Linear(m) && EntersFrom(m, low)
    ensures Fed(m, Fed(m, r, first), second) == m.zero <==> m.add(m.add(r, m.place(first)), low(second)) == m.zero
  {
    var entered := m.add(r, m.place(first));
    ShiftedAdditive(m, 8, entered, low(second));
    ShiftedKernel(m, 8, m.add(entered, low(second)));
    ShiftedKernel(m, 8, m.add(Fed(m, r, first), m.place(second)));
  }

  /** A zero register only if both are blank. */
  lemma TwoSymbolKernel<R(!new), B(!new)>(m: Machine<R, B>, low: B -> R, first: B, second: B)
    requires Linear(m) && EntersFrom(m, low)
    ensures Fed(m, Fed(m, m.zero, first), second) == m.zero <==> first == m.blank && second == m.blank
  {
    TailKernel(m, low, m.zero, first, second);
  }

  /** Blank everywhere except at `at` and `at + 1`. */
  ghost predicate Burst<R, B(!new)>(m: Machine<R, B>, d: seq<B>, at: nat) {
    && at < |d|
    && (forall i | 0 <= i < |d| && i != at && i != at + 1 :: d[i] == m.blank)
    && exists i | at <= i < |d| && i <= at + 1 :: d[i] != m.blank
  }

  lemma {:induction false} BurstNonZero<R(!new), B(!new)>(m: Machine<R, B>, low: B -> R, d: seq<B>, at: nat)
    requires Linear(m) && EntersFrom(m, low) && Burst(m, d, at)
    ensures Checksum(m, d) != m.zero
    decreases |d|
  {
    var n := |d| - 1;
    if n > at + 1 {
      var i :| at <= i < |d| && i <= at + 1 && d[i] != m.blank;
      assert d[..n][i] != m.blank;
      BurstNonZero(m, low, d[..n], at);
      ShiftedKernel(m, 8, Checksum(m, d[..n]));
    } else {
      BlanksGiveZero(m, d[..at]);
      if n == at + 1 {
        assert d[..n][..at] == d[..at];
        TwoSymbolKernel(m, low, d[at], d[n]);
      } else {
        ShiftedKernel(m, 8, m.place(d[at]));
      }
    }
  }
}

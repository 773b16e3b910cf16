/** A register that mixes in one symbol and then shifts a fixed number of times, for any word type
    with an exclusive or. */
module ShiftRegister {

  datatype Machine<!W(!new), !B(!new)> = Machine(
    shift: W -> W,
    xor: (W, W) -> W,
    load: B -> W,
    bxor: (B, B) -> B,
    steps: nat)
  {
    ghost predicate Abelian(a: W, b: W, c: W) {
      xor(xor(a, b), c) == xor(a, xor(b, c)) && xor(a, b) == xor(b, a)
    }

    /** Shifting and loading are linear for the exclusive or. */
    ghost predicate Linear() {
      && (forall a, b :: shift(xor(a, b)) == xor(shift(a), shift(b)))
      && (forall x, y :: load(bxor(x, y)) == xor(load(x), load(y)))
      && (forall a, b, c :: Abelian(a, b, c))
    }

    /** Neither a shift nor mixing in a symbol loses information. */
    ghost predicate Lossless() {
      && (forall a, b :: shift(a) == shift(b) ==> a == b)
      && (forall a, b, x :: xor(a, x) == xor(b, x) ==> a == b)
    }

    function Shifts(c: W, n: nat): W
      decreases n
    {
      if n == 0 then c else Shifts(shift(c), n - 1)
    }

    function Feed(c: W, b: B): W { Shifts(xor(c, load(b)), steps) }

    function Register(c: W, buf: seq<B>): W
      decreases |buf|
    {
      if buf == [] then c else Register(Feed(c, buf[0]), buf[1..])
    }

    lemma {:induction false} ShiftsXor(a: W, b: W, n: nat)
      requires Linear()
      ensures Shifts(xor(a, b), n) == xor(Shifts(a, n), Shifts(b, n))
      decreases n
    {
      if n > 0 {
        ShiftsXor(shift(a), shift(b), n - 1);
      }
    }

    lemma {:induction false} ShiftsInjective(a: W, b: W, n: nat)
      requires Lossless() && Shifts(a, n) == Shifts(b, n)
      ensures a == b
      decreases n
    {
      if n > 0 {
        ShiftsInjective(shift(a), shift(b), n - 1);
      }
    }

    lemma {:induction false} ShiftsAdd(c: W, m: nat, n: nat)
      ensures Shifts(c, m + n) == Shifts(Shifts(c, m), n)
      decreases m
    {
      if m > 0 {
        ShiftsAdd(shift(c), m - 1, n);
      }
    }

    /** The symbol-wise exclusive or of two buffers of one length. */
    function Xor(s: seq<B>, t: seq<B>): (r: seq<B>)
      requires |s| == |t|
      ensures |r| == |s|
    {
      seq(|s|, i requires 0 <= i < |s| => bxor(s[i], t[i]))
    }

    lemma FeedXor(a: W, b: W, x: B, y: B)
      requires Linear()
      ensures Feed(xor(a, b), bxor(x, y)) == xor(Feed(a, x), Feed(b, y))
    {
      Regroup(a, b, load(x), load(y));
      ShiftsXor(xor(a, load(x)), xor(b, load(y)), steps);
    }

    lemma Regroup(a: W, b: W, c: W, d: W)
      requires Linear()
      ensures xor(xor(a, b), xor(c, d)) == xor(xor(a, c), xor(b, d))
    {
      assert Abelian(a, b, xor(c, d));
      assert Abelian(b, c, d);
      assert Abelian(c, b, d);
      assert Abelian(a, c, xor(b, d));
    }

    /** The register after a buffer is linear in its start value and the buffer. */
    lemma {:induction false} RegisterXor(a: W, b: W, s: seq<B>, t: seq<B>)
      requires Linear() && |s| == |t|
      ensures Register(xor(a, b), Xor(s, t)) == xor(Register(a, s), Register(b, t))
      decreases |s|
    {
      if s != [] {
        FeedXor(a, b, s[0], t[0]);
        assert Xor(s, t)[1..] == Xor(s[1..], t[1..]);
        RegisterXor(Feed(a, s[0]), Feed(b, t[0]), s[1..], t[1..]);
      }
    }

    /** Different registers stay different over any further symbols. */
    lemma {:induction false} RegisterInjective(a: W, b: W, s: seq<B>)
      requires Lossless() && Register(a, s) == Register(b, s)
      ensures a == b
      decreases |s|
    {
      if s != [] {
        RegisterInjective(Feed(a, s[0]), Feed(b, s[0]), s[1..]);
        ShiftsInjective(xor(a, load(s[0])), xor(b, load(s[0])), steps);
      }
    }

    lemma {:induction false} RegisterAppend(c: W, s: seq<B>, t: seq<B>)
      ensures Register(c, s + t) == Register(Register(c, s), t)
      decreases |s|
    {
      if s == [] {
        assert s + t == t;
      } else {
        assert (s + t)[1..] == s[1..] + t;
        RegisterAppend(Feed(c, s[0]), s[1..], t);
      }
    }

    /** A change confined to a window goes unnoticed only if the window alone goes unnoticed. */
    lemma WindowDecides(c: W, before: seq<B>, d: seq<B>, e: seq<B>, behind: seq<B>)
      requires Lossless() && Register(c, before + d + behind) == Register(c, before + e + behind)
      ensures Register(Register(c, before), d) == Register(Register(c, before), e)
    {
      var r := Register(c, before);
      RegisterAppend(c, before + d, behind);
      RegisterAppend(c, before, d);
      RegisterAppend(c, before + e, behind);
      RegisterAppend(c, before, e);
      RegisterInjective(Register(r, d), Register(r, e), behind);
    }

    // ---- several symbols as one word

    /** The word whose lowest symbol comes first; `up` moves a word by one symbol. */
    function Word(up: W -> W, zero: W, d: seq<B>): W
      decreases |d|
    {
      if d == [] then zero else xor(load(d[0]), up(Word(up, zero, d[1..])))
    }

    /** Moving the later symbols up and shifting them back restores them. */
    ghost predicate Fits(up: W -> W, zero: W, d: seq<B>)
      decreases |d|
    {
      d == [] || (Fits(up, zero, d[1..]) && Shifts(up(Word(up, zero, d[1..])), steps) == Word(up, zero, d[1..]))
    }

    /** The number of shifts that n symbols take. */
    function Steps(n: nat): nat { if n == 0 then 0 else steps + Steps(n - 1) }

    ghost predicate Unit(zero: W) { forall a :: xor(a, zero) == a }

    /** Mixing in a symbol with a later word on top and shifting by one symbol leaves the symbol fed and the
        word in place. */
    lemma FeedUnderWord(c: W, b: B, w: W, upper: W)
      requires Linear() && Shifts(upper, steps) == w
      ensures Shifts(xor(c, xor(load(b), upper)), steps) == xor(Feed(c, b), w)
    {
      ShiftsXor(xor(c, load(b)), upper, steps);
      assert Abelian(c, load(b), upper);
    }

    /** Feeding symbols one by one is mixing in the whole word and then shifting it through. */
    lemma {:induction false} RegisterOfWord(up: W -> W, zero: W, c: W, d: seq<B>)
      requires Linear() && Unit(zero) && Fits(up, zero, d)
      ensures Register(c, d) == Shifts(xor(c, Word(up, zero, d)), Steps(|d|))
      decreases |d|
    {
      if d != [] {
        var w := Word(up, zero, d[1..]);
        RegisterOfWord(up, zero, Feed(c, d[0]), d[1..]);
        FeedUnderWord(c, d[0], w, up(w));
        ShiftsAdd(xor(c, xor(load(d[0]), up(w))), steps, Steps(|d| - 1));
      }
    }

    lemma XorCancelsLeft(c: W, v: W, w: W)
      requires Linear() && Lossless() && xor(c, v) == xor(c, w)
      ensures v == w
    {
      assert Abelian(c, v, c) && Abelian(c, w, c);
      assert xor(v, c) == xor(w, c);
    }

    lemma ShiftedWordsDecide(c: W, v: W, w: W, n: nat)
      requires Linear() && Lossless() && Shifts(xor(c, v), n) == Shifts(xor(c, w), n)
      ensures v == w
    {
      ShiftsInjective(xor(c, v), xor(c, w), n);
      XorCancelsLeft(c, v, w);
    }

    /** Two words of symbols that leave the same register are the same word. */
    lemma WordDecides(up: W -> W, zero: W, c: W, d: seq<B>, e: seq<B>)
      requires Linear() && Lossless() && Unit(zero)
      requires |d| == |e| && Fits(up, zero, d) && Fits(up, zero, e)
      requires Register(c, d) == Register(c, e)
      ensures Word(up, zero, d) == Word(up, zero, e)
    {
      RegisterOfWord(up, zero, c, d);
      RegisterOfWord(up, zero, c, e);
      ShiftedWordsDecide(c, Word(up, zero, d), Word(up, zero, e), Steps(|d|));
    }
  }
}

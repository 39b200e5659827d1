/** IOPoll.cxx: the size to which the vector of watchers grows. */
module PowerOfTwo {

  predicate IsPower(n: bv32) {
    n != 0 && n & (n - 1) == 0
  }

  /** No power of two lies between a number and one above its highest bit copied into all lower ones. */
  function Smear(number: bv32): bv32 {
    var n0 := number - 1;
    var n1 := n0 | (n0 >> 1);
    var n2 := n1 | (n1 >> 2);
    var n3 := n2 | (n2 >> 4);
    var n4 := n3 | (n3 >> 8);
    (n4 | (n4 >> 16)) + 1
  }

  lemma SmearIsPower(number: bv32)
    requires 1 <= number <= 0x8000_0000
    ensures number <= Smear(number) && IsPower(Smear(number)) && Smear(number) != 0
  {
  }

  lemma SmearIsLeast(number: bv32, p: bv32)
    requires 1 <= number <= 0x8000_0000 && IsPower(p) && number <= p
    ensures Smear(number) <= p
  {
  }

  lemma SmearWraps(number: bv32)
    requires number == 0 || 0x8000_0000 < number
    ensures Smear(number) == 0
  {
  }

  lemma SmearIsNext(number: bv32)
    ensures Smear(number) != 0 <==> 1 <= number <= 0x8000_0000
    ensures Smear(number) != 0 ==>
      number <= Smear(number) && IsPower(Smear(number)) && forall p: bv32 :: IsPower(p) && number <= p ==> Smear(number) <= p
  {
    hide IsPower, Smear;
    if 1 <= number <= 0x8000_0000 {
      SmearIsPower(number);
      forall p: bv32 | IsPower(p) && number <= p
        ensures Smear(number) <= p
      {
        SmearIsLeast(number, p);
      }
    } else {
      SmearWraps(number);
    }
  }

  /** The least power of two not below the number, or 0 where there is none in 32 bits. */
  method NextPowerOfTwo(number: bv32) returns (r: bv32)
    ensures r != 0 <==> 1 <= number <= 0x8000_0000
    ensures r != 0 ==> number <= r && IsPower(r) && forall p: bv32 :: IsPower(p) && number <= p ==> r <= p
  {
    hide IsPower;
    r := number - 1;
    r := r | (r >> 1);
    r := r | (r >> 2);
    r := r | (r >> 4);
    r := r | (r >> 8);
    r := r | (r >> 16);
    r := r + 1;
    assert r == Smear(number);
    SmearIsNext(number);
  }
}

/**
 Session ids that run through 1 .. 2^32 - 1 and skip 0, as `dap_service.c` and `network_auth.c` hand
 them out under `firmware/components`.
 */
module SessionIds {
  const IDS := 0xFFFF_FFFF
  const WORD := 0x1_0000_0000

  // The id of the k-th session ever opened.
  function Id(k: nat): nat
    requires k > 0
  {
    (k - 1) % IDS + 1
  }

  lemma Remainder(n: nat, q: nat, r: nat)
    requires n == IDS * q + r && r < IDS
    ensures n % IDS == r
  {
  }

  lemma NextId(k: nat)
    requires k > 0
    ensures 0 < Id(k) < WORD
    ensures Id(k) + 1 == WORD <==> k % IDS == 0
    ensures Id(k + 1) == if Id(k) + 1 == WORD then 1 else Id(k) + 1
  {
    var q, r := (k - 1) / IDS, (k - 1) % IDS;
    if r + 1 < IDS {
      Remainder(k, q, r + 1);
    } else {
      Remainder(k, q + 1, 0);
    }
  }

  /** Two sessions opened less than a full round of ids apart never share an id. */
  lemma IdsDiffer(a: nat, b: nat)
    requires 0 < a <= b && b - a < IDS && Id(a) == Id(b)
    ensures a == b
  {
    var p, q, r := (a - 1) / IDS, (b - 1) / IDS, (a - 1) % IDS;
    assert a - 1 == IDS * p + r && b - 1 == IDS * q + r;
    assert b - a == IDS * (q - p);
    Remainder(b - a, q - p, 0);
  }
}

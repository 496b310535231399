/**
 The console input ring (src/console.rs:39-82): a 256-byte array between two indices that only grow,
 refining a FIFO queue that drops a byte only when it is full.
 */
module Console {
  import opened Options

  const INPUT_CAP := 256
  const CR := 13
  const NL := 10

  type byte = b: int | 0 <= b < 256

  /** Terminal CR becomes NL. */
  function Normal(b: byte): byte { if b == CR then NL else b }

  // --- the queue ---

  type Queue = seq<byte>

  function Accept(q: Queue, b: byte): Queue { if |q| < INPUT_CAP then q + [Normal(b)] else q }

  datatype Event = Arrive(b: byte) | Read

  function Next(q: Queue, e: Event): Queue
  {
    match e
    case Arrive(b) => Accept(q, b)
    case Read => if q == [] then [] else q[1..]
  }

  function Final(q: Queue, es: seq<Event>): Queue
    decreases |es|
  {
    if es == [] then q else Final(Next(q, es[0]), es[1..])
  }

  // --- what came in and what was read, read off the events ---

  /** The byte that an arrival brings in, with CR as NL, unless 256 bytes are waiting. */
  function TakenBy(q: Queue, e: Event): seq<byte>
  {
    if e.Arrive? && |q| < 256 then [if e.b == 13 then 10 else e.b] else []
  }

  /** The byte that a read returns: the one that has waited longest. */
  function ReadBy(q: Queue, e: Event): seq<byte> { if e.Read? && q != [] then [q[0]] else [] }

  function Taken(q: Queue, es: seq<Event>): seq<byte>
    decreases |es|
  {
    if es == [] then [] else TakenBy(q, es[0]) + Taken(Next(q, es[0]), es[1..])
  }

  function Returned(q: Queue, es: seq<Event>): seq<byte>
    decreases |es|
  {
    if es == [] then [] else ReadBy(q, es[0]) + Returned(Next(q, es[0]), es[1..])
  }

  lemma NextMoves(q: Queue, e: Event)
    requires |q| <= 256
    ensures |Next(q, e)| <= 256 && ReadBy(q, e) + Next(q, e) == q + TakenBy(q, e)
  {
  }

  /** Over every run: the bytes read followed by the bytes queued are those that waited at first followed by those taken
      in, in order; and no more than 256 ever wait. */
  lemma {:induction false} InOrder(q: Queue, es: seq<Event>)
    requires |q| <= 256
    ensures Returned(q, es) + Final(q, es) == q + Taken(q, es) && |Final(q, es)| <= 256
    decreases |es|
  {
    hide Next, TakenBy, ReadBy;
    if es != [] {
      var q', rest := Next(q, es[0]), es[1..];
      NextMoves(q, es[0]);
      InOrder(q', rest);
      Chain(ReadBy(q, es[0]), Returned(q', rest), Final(q', rest), q', Taken(q', rest), q, TakenBy(q, es[0]));
    }
  }

  lemma Chain(a: seq<byte>, b: seq<byte>, c: seq<byte>, d: seq<byte>, e: seq<byte>, f: seq<byte>, g: seq<byte>)
    requires b + c == d + e && a + d == f + g
    ensures a + b + c == f + (g + e)
  {
    assert a + b + c == a + (b + c) == a + d + e;
  }

  // --- the ring ---

  /** Two positions less than 256 apart that share a slot are the same. */
  lemma SlotApart(j: nat, k: nat)
    requires j <= k < j + INPUT_CAP && j % INPUT_CAP == k % INPUT_CAP
    ensures j == k
  {
  }

  class Ring {
    const buf: array<byte>
    var r: nat
    var w: nat

    ghost predicate Valid()
      reads this
    {
      buf.Length == INPUT_CAP && r <= w <= r + INPUT_CAP
    }

    ghost function Contents(): (q: Queue)
      requires Valid()
      reads this, buf
      ensures |q| == w - r && forall k :: 0 <= k < w - r ==> q[k] == buf[(r + k) % INPUT_CAP]
    {
      seq(w - r, k requires 0 <= k < w - r reads this, buf requires buf.Length == INPUT_CAP => buf[(r + k) % INPUT_CAP])
    }

    constructor ()
      ensures Valid() && fresh(buf) && Contents() == []
    {
      buf := new byte[INPUT_CAP](_ => 0);
      r, w := 0, 0;
    }

    method OnInput(b: byte)
      requires Valid()
      modifies this`w, buf
      ensures Valid() && Contents() == Accept(old(Contents()), b)
    {
      ghost var q := Contents();
      var c := Normal(b);
      if w - r < INPUT_CAP {
        var slot := w % INPUT_CAP;
        buf[slot] := c;
        w := w + 1;
        forall k | 0 <= k < |q| ensures buf[(r + k) % INPUT_CAP] == q[k] {
          if (r + k) % INPUT_CAP == slot {
            SlotApart(r + k, w - 1);
          }
        }
        assert Contents() == q + [c];
      }
    }

    method Getchar() returns (out: Option<byte>)
      requires Valid()
      modifies this`r
      ensures Valid()
      ensures
        if old(Contents()) == [] then out == None && Contents() == []
        else out == Some(old(Contents())[0]) && Contents() == old(Contents())[1..]
    {
      ghost var q := Contents();
      if r == w {
        out := None;
      } else {
        out := Some(buf[r % INPUT_CAP]);
        assert q[0] == buf[(r + 0) % INPUT_CAP];
        r := r + 1;
        assert Contents() == q[1..] by {
          forall k | 0 <= k < w - r ensures Contents()[k] == q[1..][k] {
            assert q[k + 1] == buf[(r - 1 + (k + 1)) % INPUT_CAP];
          }
        }
      }
    }
  }

  method Handle(ring: Ring, e: Event) returns (out: seq<byte>)
    requires ring.Valid()
    modifies ring, ring.buf
    ensures ring.Valid() && out == ReadBy(old(ring.Contents()), e) && ring.Contents() == Next(old(ring.Contents()), e)
  {
    out := [];
    match e {
      case Arrive(b) => ring.OnInput(b);
      case Read =>
        var c := ring.Getchar();
        if c.Some? {
          out := [c.value];
        }
    }
  }

  /** Any arrivals and reads on the ring itself. */
  method Drive(ring: Ring, es: seq<Event>) returns (out: seq<byte>)
    requires ring.Valid()
    modifies ring, ring.buf
    ensures ring.Valid() && out == Returned(old(ring.Contents()), es)
    ensures ring.Contents() == Final(old(ring.Contents()), es)
    ensures out + ring.Contents() == old(ring.Contents()) + Taken(old(ring.Contents()), es)
  {
    ghost var q := ring.Contents();
    InOrder(q, es);
    hide Taken, Returned, Final, Next, ReadBy;
    out := [];
    var i := 0;
    assert es[0..] == es;
    while i < |es|
      invariant 0 <= i <= |es| && ring.Valid()
      invariant Final(q, es) == Final(ring.Contents(), es[i..])
      invariant Returned(q, es) == out + Returned(ring.Contents(), es[i..])
    {
      ghost var now := ring.Contents();
      Unfold(now, es, i);
      var more := Handle(ring, es[i]);
      out := out + more;
      i := i + 1;
    }
    Ended(ring.Contents());
    assert es[i..] == [];
  }

  lemma Ended(q: Queue)
    ensures Final(q, []) == q && Returned(q, []) == []
  {
  }

  lemma Unfold(q: Queue, es: seq<Event>, i: nat)
    requires i < |es|
    ensures Final(q, es[i..]) == Final(Next(q, es[i]), es[i + 1..])
    ensures Returned(q, es[i..]) == ReadBy(q, es[i]) + Returned(Next(q, es[i]), es[i + 1..])
  {
    hide Next;
    assert es[i..][0] == es[i] && es[i..][1..] == es[i + 1..];
  }
}

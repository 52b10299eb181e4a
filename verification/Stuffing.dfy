/** Byte stuffing: in entropy-coded data every 0xFF byte is followed by a zero byte. */
module Stuffing {
  import opened Numbers

  function StuffByte(b: Byte): (s: seq<Byte>) {
    if b == 255 then [255, 0] else [b]
  }

  function Stuff(u: seq<Byte>): (s: seq<Byte>) {
    if u == [] then [] else Stuff(u[..|u| - 1]) + StuffByte(u[|u| - 1])
  }

  lemma StuffSnoc(u: seq<Byte>, b: Byte)
    ensures Stuff(u + [b]) == Stuff(u) + StuffByte(b)
  {
    assert (u + [b])[..|u|] == u;
  }

  /** In stuffed data no marker can appear: what follows an 0xFF byte is always there, and zero. */
  lemma {:induction false} StuffHasNoMarker(u: seq<Byte>, i: nat)
    requires i < |Stuff(u)| && Stuff(u)[i] == 255
    ensures i + 1 < |Stuff(u)| && Stuff(u)[i + 1] == 0
  {
    var w := u[..|u| - 1];
    if i < |Stuff(w)| {
      StuffHasNoMarker(w, i);
    }
  }

  /** Stuffed data ends in a zero byte only if that byte is stuffing or was data. */
  lemma StuffLast(u: seq<Byte>)
    requires u != [] && u[|u| - 1] != 0
    ensures var s := Stuff(u); s != [] && (s[|s| - 1] == 0 ==> |s| >= 2 && s[|s| - 2] == 255)
  {
  }
}

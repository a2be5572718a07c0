/** src/daemon/tlm-seat.c: the default user of a seat, made from a template. */
module UserName {
  import opened Decimal

  /** The template does not end in a lone percent sign, behind which the original would read on past the end. */
  predicate Complete(template: string) {
    template == [] ||
    if template[0] == '%' then |template| >= 2 && Complete(template[2..]) else Complete(template[1..])
  }

  /** %S stands for the number of the seat, %I for its name, % with any other character for nothing. */
  function Field(c: char, seatId: string, seatNum: int): string {
    if c == 'S' then Print(seatNum) else if c == 'I' then seatId else ""
  }

  function Expand(template: string, seatId: string, seatNum: int): string
    requires Complete(template)
  {
    if template == [] then []
    else if template[0] == '%' then Field(template[1], seatId, seatNum) + Expand(template[2..], seatId, seatNum)
    else [template[0]] + Expand(template[1..], seatId, seatNum)
  }

  function SeatNumber(seatId: string): int {
    if "seat" <= seatId then Atoi(seatId[4..]) else 0
  }

  function DefaultUser(template: string, seatId: string): string
    requires Complete(template)
  {
    Expand(template, seatId, SeatNumber(seatId))
  }

  method BuildUserName(template: string, seatId: string) returns (out: string)
    requires Complete(template)
    ensures out == DefaultUser(template, seatId)
  {
    var seatNum := 0;
    if "seat" <= seatId {
      seatNum := Atoi(seatId[4..]);
    }
    out := Fill(template, seatId, seatNum);
  }

  /** The pointer loop over the template computes the substitution. */
  method Fill(template: string, seatId: string, seatNum: int) returns (out: string)
    requires Complete(template)
    ensures out == Expand(template, seatId, seatNum)
  {
    out := [];
    var p := 0;
    while p < |template|
      invariant 0 <= p <= |template| && Complete(template[p..])
      invariant Filled(out, template, p, seatId, seatNum)
    {
      NextField(out, template, p, seatId, seatNum);
      if template[p] == '%' {
        p := p + 1;
        match template[p] {
          case 'S' => out := out + Print(seatNum);
          case 'I' => out := out + seatId;
          case _ => assert out + "" == out;
        }
      } else {
        out := out + [template[p]];
      }
      p := p + 1;
    }
  }

  /** What has been written, followed by the expansion of the rest, is the whole expansion. */
  ghost predicate Filled(out: string, template: string, p: nat, seatId: string, seatNum: int)
    requires p <= |template| && Complete(template) && Complete(template[p..])
  {
    out + Expand(template[p..], seatId, seatNum) == Expand(template, seatId, seatNum)
  }

  /** One turn of the loop: a field or a character is written. */
  lemma NextField(out: string, template: string, p: nat, seatId: string, seatNum: int)
    requires p < |template| && Complete(template) && Complete(template[p..]) && Filled(out, template, p, seatId, seatNum)
    ensures template[p] == '%' ==>
              && p + 1 < |template| && Complete(template[p + 2..])
              && Filled(out + Field(template[p + 1], seatId, seatNum), template, p + 2, seatId, seatNum)
    ensures template[p] != '%' ==>
              && Complete(template[p + 1..])
              && Filled(out + [template[p]], template, p + 1, seatId, seatNum)
  {
    assert template[p..][1..] == template[p + 1..];
    if template[p] == '%' {
      assert template[p..][2..] == template[p + 2..];
      Reassociate(out, Field(template[p + 1], seatId, seatNum), Expand(template[p + 2..], seatId, seatNum));
    } else {
      Reassociate(out, [template[p]], Expand(template[p + 1..], seatId, seatNum));
    }
  }

  lemma Reassociate(a: string, b: string, c: string)
    ensures a + b + c == a + (b + c)
  {
  }

  // ----- Different seats, different users -----

  /** Somewhere the template mentions the seat. */
  predicate MentionsSeat(template: string)
    requires Complete(template)
  {
    template != [] &&
    if template[0] == '%' then template[1] in {'S', 'I'} || MentionsSeat(template[2..]) else MentionsSeat(template[1..])
  }

  /** The name of virtual seat n. */
  function VirtualSeat(n: nat): string {
    "seat" + PrintNat(n)
  }

  lemma VirtualSeatNumber(n: nat)
    ensures SeatNumber(VirtualSeat(n)) == n
  {
    assert VirtualSeat(n)[..4] == "seat" && VirtualSeat(n)[4..] == PrintNat(n);
    AtoiPrint(n);
  }

  /** A field that mentions the seat ends with the seat's digits; what is before them is the same for all seats. */
  lemma FieldDigits(c: char, n: nat, m: nat)
    requires c in {'S', 'I'}
    ensures var a, b := Field(c, VirtualSeat(n), n), Field(c, VirtualSeat(m), m);
            && |a| - |PrintNat(n)| == |b| - |PrintNat(m)| >= 0
            && (a == b ==> PrintNat(n) == PrintNat(m))
  {
    assert VirtualSeat(n)[4..] == PrintNat(n) && VirtualSeat(m)[4..] == PrintNat(m);
  }

  /** More digits make a longer name. */
  lemma {:induction false} LongerName(template: string, n: nat, m: nat)
    requires Complete(template) && |PrintNat(n)| <= |PrintNat(m)|
    ensures |Expand(template, VirtualSeat(n), n)| <= |Expand(template, VirtualSeat(m), m)|
    ensures |PrintNat(n)| == |PrintNat(m)| ==>
              |Expand(template, VirtualSeat(n), n)| == |Expand(template, VirtualSeat(m), m)|
    ensures MentionsSeat(template) && |PrintNat(n)| < |PrintNat(m)| ==>
              |Expand(template, VirtualSeat(n), n)| < |Expand(template, VirtualSeat(m), m)|
    decreases |template|
  {
    if template != [] {
      if template[0] == '%' {
        LongerName(template[2..], n, m);
        if template[1] in {'S', 'I'} {
          FieldDigits(template[1], n, m);
        }
      } else {
        LongerName(template[1..], n, m);
      }
    }
  }

  /** With equally many digits, equal names have equal digits at the first mention. */
  lemma {:induction false} SameNameSameDigits(template: string, n: nat, m: nat)
    requires Complete(template) && MentionsSeat(template) && |PrintNat(n)| == |PrintNat(m)|
    requires Expand(template, VirtualSeat(n), n) == Expand(template, VirtualSeat(m), m)
    ensures PrintNat(n) == PrintNat(m)
    decreases |template|
  {
    var a, b := Expand(template, VirtualSeat(n), n), Expand(template, VirtualSeat(m), m);
    if template[0] != '%' {
      assert a[1..] == Expand(template[1..], VirtualSeat(n), n) && b[1..] == Expand(template[1..], VirtualSeat(m), m);
      SameNameSameDigits(template[1..], n, m);
    } else if template[1] in {'S', 'I'} {
      FieldDigits(template[1], n, m);
      var f, g := Field(template[1], VirtualSeat(n), n), Field(template[1], VirtualSeat(m), m);
      assert f == a[..|f|] && g == b[..|g|];
    } else {
      assert a == Expand(template[2..], VirtualSeat(n), n) && b == Expand(template[2..], VirtualSeat(m), m);
      SameNameSameDigits(template[2..], n, m);
    }
  }

  lemma {:induction false} NoMentionOneName(template: string, n: nat, m: nat)
    requires Complete(template) && !MentionsSeat(template)
    ensures Expand(template, VirtualSeat(n), n) == Expand(template, VirtualSeat(m), m)
    decreases |template|
  {
    if template != [] {
      NoMentionOneName(if template[0] == '%' then template[2..] else template[1..], n, m);
    }
  }

  /** Two virtual seats share their default user if and only if the template mentions no seat. */
  lemma DistinctDefaultUsers(template: string, n: nat, m: nat)
    requires Complete(template) && n != m
    ensures DefaultUser(template, VirtualSeat(n)) != DefaultUser(template, VirtualSeat(m)) <==> MentionsSeat(template)
  {
    VirtualSeatNumber(n);
    VirtualSeatNumber(m);
    ReadPrint(n);
    ReadPrint(m);
    if !MentionsSeat(template) {
      NoMentionOneName(template, n, m);
    } else if |PrintNat(n)| == |PrintNat(m)| {
      if DefaultUser(template, VirtualSeat(n)) == DefaultUser(template, VirtualSeat(m)) {
        SameNameSameDigits(template, n, m);
      }
    } else if |PrintNat(n)| < |PrintNat(m)| {
      LongerName(template, n, m);
    } else {
      LongerName(template, m, n);
    }
  }

  // ----- The fields, one by one -----

  /** A template is expanded piece by piece. */
  lemma {:induction false} ExpandPieces(a: string, b: string, seatId: string, seatNum: int)
    requires Complete(a) && Complete(b)
    ensures Complete(a + b) && Expand(a + b, seatId, seatNum) == Expand(a, seatId, seatNum) + Expand(b, seatId, seatNum)
    decreases |a|
  {
    if a == "" {
      assert a + b == b;
    } else if a[0] == '%' {
      assert (a + b)[2..] == a[2..] + b && (a + b)[1] == a[1];
      ExpandPieces(a[2..], b, seatId, seatNum);
    } else {
      assert (a + b)[1..] == a[1..] + b;
      ExpandPieces(a[1..], b, seatId, seatNum);
    }
  }

  /** %S is the number of the seat, %I its name, any other field nothing, and a character without % itself. */
  lemma FieldsInFigures(c: char, seatId: string, seatNum: int)
    ensures Complete("%S") && Expand("%S", seatId, seatNum) == Print(seatNum)
    ensures Complete("%I") && Expand("%I", seatId, seatNum) == seatId
    ensures c != 'S' && c != 'I' ==> Complete(['%', c]) && Expand(['%', c], seatId, seatNum) == ""
    ensures c != '%' ==> Complete([c]) && Expand([c], seatId, seatNum) == [c]
  {
    assert "%S"[2..] == "" && "%I"[2..] == "" && ['%', c][2..] == "" && [c][1..] == "";
    assert "" + Expand("", seatId, seatNum) == "";
  }

  /** The number is read from a name that begins with "seat", and is 0 for any other. */
  lemma NumberInFigures(n: nat, seatId: string)
    ensures SeatNumber("seat" + PrintNat(n)) == n
    ensures |seatId| < 4 || seatId[..4] != "seat" ==> SeatNumber(seatId) == 0
  {
    VirtualSeatNumber(n);
    assert "seat" <= seatId ==> seatId[..4] == "seat";
  }
}

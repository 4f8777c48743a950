/** What the string operations do, character by character. */
module TextLaws {
  import opened Text

  /** Tabulator, line feed, vertical tabulator, form feed, carriage return, space, no-break space. */
  predicate White(c: char) {
    c as int == 9 || c as int == 10 || c as int == 11 || c as int == 12 || c as int == 13 || c as int == 32 || c as int == 160
  }

  predicate AllWhite(s: string) {
    forall i | 0 <= i < |s| :: White(s[i])
  }

  lemma {:induction false} TrimLeftLaw(s: string) returns (front: string)
    ensures s == front + TrimLeft(s) && AllWhite(front)
  {
    if s != "" && IsSpace(s[0]) {
      var rest := TrimLeftLaw(s[1..]);
      front := [s[0]] + rest;
    } else {
      front := "";
    }
  }

  lemma {:induction false} TrimRightLaw(s: string) returns (back: string)
    ensures s == TrimRight(s) + back && AllWhite(back)
  {
    if s != "" && IsSpace(s[|s| - 1]) {
      var rest := TrimRightLaw(s[..|s| - 1]);
      back := rest + [s[|s| - 1]];
    } else {
      back := "";
    }
  }

  /** Trimming takes white space off both ends, and all of it. */
  lemma TrimLaw(s: string) returns (front: string, back: string)
    ensures s == front + Trim(s) + back && AllWhite(front) && AllWhite(back)
    ensures Trim(s) != "" ==> !White(Trim(s)[0]) && !White(Trim(s)[|Trim(s)| - 1])
  {
    front := TrimLeftLaw(s);
    back := TrimRightLaw(TrimLeft(s));
    hide TrimLeft, TrimRight, AllWhite;
    assert s == front + (Trim(s) + back);
  }

  lemma TrimsToNothing(s: string)
    ensures Trim(s) == "" <==> AllWhite(s)
  {
    var front, back := TrimLaw(s);
    hide Trim, White;
    var t := Trim(s);
    assert t != "" ==> s[|front|] == t[0];
  }

  /** Exactly the letters from A to Z go 32 places up. */
  lemma LowerLaw(s: string, i: nat)
    requires i < |s|
    ensures |Lower(s)| == |s|
    ensures Lower(s)[i] as int == if 'A' <= s[i] <= 'Z' then s[i] as int + 32 else s[i] as int
  {
  }

  /** Exactly the letters from a to z go 32 places down. */
  lemma {:induction false} UpperLaw(s: string, i: nat)
    requires i < |s|
    ensures |Upper(s)| == |s|
    ensures Upper(s)[i] as int == if 'a' <= s[i] <= 'z' then s[i] as int - 32 else s[i] as int
  {
    if i > 0 {
      UpperLaw(s[1..], i - 1);
    }
  }

  /** The number that a text of digits stands for. */
  function Read(s: string): int {
    if s == "" then 0 else 10 * Read(s[..|s| - 1]) + (s[|s| - 1] as int - 48)
  }

  /** A rendering reads back as the number, and has no leading zero. */
  lemma {:induction false} DecimalLaw(n: nat)
    ensures Read(Decimal(n)) == n
    ensures n > 0 ==> Decimal(n)[0] != '0'
  {
    if n < 10 {
      assert Decimal(n) == [n as char + '0'] && Decimal(n)[..0] == "";
    } else {
      DecimalLaw(n / 10);
      assert Decimal(n)[..|Decimal(n)| - 1] == Decimal(n / 10);
    }
  }

  /** Parts, put together again with the separator between them. */
  function Join(parts: seq<string>, sep: char): string {
    if parts == [] then ""
    else if |parts| == 1 then parts[0]
    else parts[0] + [sep] + Join(parts[1..], sep)
  }

  /** Splitting cuts at every separator and loses nothing else. */
  lemma {:induction false} SplitLaw(s: string, sep: char)
    ensures Join(Split(s, sep), sep) == s
    ensures forall i | 0 <= i < |Split(s, sep)| :: sep !in Split(s, sep)[i]
  {
    if s != "" {
      var rest := Split(s[1..], sep);
      SplitLaw(s[1..], sep);
      assert s == [s[0]] + s[1..];
      if s[0] == sep {
        assert ([""] + rest)[1..] == rest;
      } else {
        LongerFirst(s[0], rest, sep);
      }
    }
  }

  lemma LongerFirst(c: char, parts: seq<string>, sep: char)
    requires parts != []
    ensures Join([[c] + parts[0]] + parts[1..], sep) == [c] + Join(parts, sep)
  {
    var longer := [[c] + parts[0]] + parts[1..];
    assert longer[1..] == parts[1..];
    var tail := Join(parts[1..], sep);
    hide Join;
    assert [c] + parts[0] + [sep] + tail == [c] + (parts[0] + [sep] + tail);
  }
}

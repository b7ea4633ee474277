/** The string helpers the workflow engine leans on. */
module Text {
  import opened Lists

  /** The Unicode White_Space characters that Go's strings.TrimSpace removes. */
  predicate IsSpace(c: char) {
    var n := c as int;
    9 <= n <= 13 || n == 32 || n == 0x85 || n == 0xA0 || n == 0x1680 || 0x2000 <= n <= 0x200a
    || n == 0x2028 || n == 0x2029 || n == 0x202f || n == 0x205f || n == 0x3000
  }

  function TrimLeft(s: string): string {
    if s != "" && IsSpace(s[0]) then TrimLeft(s[1..]) else s
  }

  function TrimRight(s: string): string {
    if s != "" && IsSpace(s[|s| - 1]) then TrimRight(s[..|s| - 1]) else s
  }

  function TrimSpace(s: string): string {
    TrimRight(TrimLeft(s))
  }

  /** A string without white space at either end. */
  predicate Trimmed(s: string) {
    s == "" || (!IsSpace(s[0]) && !IsSpace(s[|s| - 1]))
  }

  lemma {:induction false} TrimSpaceTrims(s: string)
    ensures Trimmed(TrimSpace(s))
    ensures Trimmed(s) ==> TrimSpace(s) == s
  {
    TrimLeftTrims(s);
    TrimRightTrims(TrimLeft(s));
  }

  lemma {:induction false} TrimLeftTrims(s: string)
    ensures TrimLeft(s) == "" || !IsSpace(TrimLeft(s)[0])
  {
    if s != "" && IsSpace(s[0]) {
      TrimLeftTrims(s[1..]);
    }
  }

  lemma {:induction false} TrimRightTrims(s: string)
    ensures TrimRight(s) <= s
    ensures TrimRight(s) == "" || !IsSpace(TrimRight(s)[|TrimRight(s)| - 1])
  {
    if s != "" && IsSpace(s[|s| - 1]) {
      TrimRightTrims(s[..|s| - 1]);
    }
  }

  /** Trimming takes away exactly the white space before and after. */
  lemma TrimSpaceCuts(s: string) returns (i: nat, j: nat)
    ensures i <= j <= |s| && TrimSpace(s) == s[i..j]
    ensures forall k :: 0 <= k < i || j <= k < |s| ==> IsSpace(s[k])
  {
    i := TrimLeftCuts(s);
    j := TrimRightCuts(s[i..]);
    j := i + j;
    forall k | j <= k < |s|
      ensures IsSpace(s[k])
    {
      assert s[k] == s[i..][k - i];
    }
  }

  lemma {:induction false} TrimLeftCuts(s: string) returns (i: nat)
    ensures i <= |s| && TrimLeft(s) == s[i..] && forall k :: 0 <= k < i ==> IsSpace(s[k])
  {
    i := 0;
    if s != "" && IsSpace(s[0]) {
      i := TrimLeftCuts(s[1..]);
      i := i + 1;
      assert forall k :: 0 < k < i ==> s[k] == s[1..][k - 1];
    }
  }

  lemma {:induction false} TrimRightCuts(s: string) returns (j: nat)
    ensures j <= |s| && TrimRight(s) == s[..j] && forall k :: j <= k < |s| ==> IsSpace(s[k])
  {
    j := |s|;
    if s != "" && IsSpace(s[|s| - 1]) {
      j := TrimRightCuts(s[..|s| - 1]);
      assert forall k :: j <= k < |s| - 1 ==> s[k] == s[..|s| - 1][k];
    }
  }

  /** Every character in lower case, for a given lower-casing of characters. */
  function LowerAll(lower: char -> char, s: string): string {
    if s == "" then "" else [lower(s[0])] + LowerAll(lower, s[1..])
  }

  /** The unit separator between the parts of a state key. */
  const SEPARATOR := "\U{1F}"

  function Join(parts: seq<string>, separator: string): string {
    if parts == [] then ""
    else if |parts| == 1 then parts[0]
    else parts[0] + separator + Join(parts[1..], separator)
  }

  /** The parts trimmed, blanks dropped, order kept. */
  function OrderedStrings(values: seq<string>): seq<string> {
    if values == [] then []
    else
      var head := TrimSpace(values[0]);
      (if head == "" then [] else [head]) + OrderedStrings(values[1..])
  }

  function JoinOrdered(values: seq<string>): string {
    Join(OrderedStrings(values), "\n\n")
  }

  function FirstNonEmpty(left: string, right: string): string {
    if TrimSpace(left) != "" then TrimSpace(left) else TrimSpace(right)
  }

  /** One more part goes to the end, after a separator if there is something before it. */
  lemma {:induction false} JoinNext(parts: seq<string>, part: string, separator: string)
    ensures Join(parts + [part], separator) == if parts == [] then part else Join(parts, separator) + separator + part
  {
    if |parts| > 1 {
      assert (parts + [part])[1..] == parts[1..] + [part];
      JoinNext(parts[1..], part, separator);
    } else if |parts| == 1 {
      assert (parts + [part])[1..] == [part];
    }
  }

  lemma {:induction false} OrderedNext(values: seq<string>, value: string)
    ensures OrderedStrings(values + [value])
         == OrderedStrings(values) + (if TrimSpace(value) == "" then [] else [TrimSpace(value)])
  {
    if values == [] {
      assert values + [value] == [value] && [value][1..] == [];
    } else {
      assert (values + [value])[1..] == values[1..] + [value];
      OrderedNext(values[1..], value);
    }
  }

  ghost function NotBlank(): string -> bool {
    (s: string) => TrimSpace(s) != ""
  }

  /** Exactly the texts that are not blank, trimmed, in their order. */
  lemma {:induction false} OrderedStringsSelects(values: seq<string>)
    ensures Selects(OrderedStrings(values), values, NotBlank(), (s: string) => TrimSpace(s))
  {
    hide TrimSpace;
    if values == [] {
      SelectsNothing(NotBlank(), (s: string) => TrimSpace(s));
    } else {
      var front, last := values[..|values| - 1], values[|values| - 1];
      assert values == front + [last];
      OrderedStringsSelects(front);
      OrderedNext(front, last);
      SelectsNext(OrderedStrings(front), front, last, NotBlank(), (s: string) => TrimSpace(s));
    }
  }
}

/**
 * The string operations the query processor relies on: ASCII lower-casing
 * (Python's `str.lower` restricted to ASCII), substring containment (Python's
 * `needle in hay`) and `sep.join(items)`.
 */
module Text {

  /** Lower-cases an ASCII capital; every other character is returned unchanged. */
  function LowerChar(c: char): char {
    if 'A' <= c <= 'Z' then (c as int + 32) as char else c
  }

  /** `s.lower()`, for ASCII text. */
  function Lower(s: string): (r: string)
    ensures |r| == |s|
    ensures forall i :: 0 <= i < |s| ==> r[i] == LowerChar(s[i])
    ensures forall i :: 0 <= i < |r| ==> !('A' <= r[i] <= 'Z')
  {
    if s == [] then [] else [LowerChar(s[0])] + Lower(s[1..])
  }

  /** `needle in hay`: the needle occurs at some offset of the hay. */
  predicate Contains(hay: string, needle: string)
    decreases |hay|
  {
    needle <= hay || (|hay| > 0 && Contains(hay[1..], needle))
  }

  /** True when at least one of `words` occurs in `hay`. */
  predicate ContainsAny(hay: string, words: seq<string>) {
    exists k :: 0 <= k < |words| && Contains(hay, words[k])
  }

  /** `sep.join(items)`. */
  function Join(items: seq<string>, sep: string): string {
    if items == [] then ""
    else if |items| == 1 then items[0]
    else items[0] + sep + Join(items[1..], sep)
  }

  /** The empty needle occurs in every hay, as `"" in s` does in Python. */
  lemma EmptyOccurs(hay: string)
    ensures Contains(hay, "")
  {
  }

  /** A needle found somewhere in `y` is found in `x + y + z` as well. */
  lemma {:induction false} ContainsInContext(x: string, y: string, z: string, needle: string)
    requires Contains(y, needle)
    ensures Contains(x + y + z, needle)
  {
    if x == [] {
      ContainsExtendRight(y, z, needle);
      assert x + y + z == y + z;
    } else {
      ContainsInContext(x[1..], y, z, needle);
      assert (x + y + z)[1..] == x[1..] + y + z;
    }
  }

  lemma {:induction false} ContainsExtendRight(y: string, z: string, needle: string)
    requires Contains(y, needle)
    ensures Contains(y + z, needle)
    decreases |y|
  {
    if needle <= y {
      assert needle <= y + z;
    } else {
      ContainsExtendRight(y[1..], z, needle);
      assert (y + z)[1..] == y[1..] + z;
    }
  }

  /** Every item of a join occurs in the joined text: no item is dropped. */
  lemma {:induction false} JoinContainsItems(items: seq<string>, sep: string, k: nat)
    requires k < |items|
    ensures Contains(Join(items, sep), items[k])
    decreases |items|
  {
    if |items| == 1 {
      assert items[k] <= Join(items, sep);
    } else if k == 0 {
      ContainsInContext("", items[0], sep + Join(items[1..], sep), items[0]);
      assert "" + items[0] + (sep + Join(items[1..], sep)) == Join(items, sep);
    } else {
      JoinContainsItems(items[1..], sep, k - 1);
      ContainsInContext(items[0] + sep, Join(items[1..], sep), "", items[k]);
      assert items[0] + sep + Join(items[1..], sep) + "" == Join(items, sep);
    }
  }
}

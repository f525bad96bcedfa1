/** The watch-list classifier of the ingestion loop: a transfer is inbound
    when its recipient is on the watch-list and outbound when its sender is,
    comparing addresses after lower-casing. Addresses are the text the
    program renders them as (`0x` followed by hex digits), so lower-casing
    is modelled on ASCII letters. */
module Watch {

  type Address = string

  function LowerChar(c: char): char {
    if 'A' <= c <= 'Z' then (c as int - 'A' as int + 'a' as int) as char else c
  }

  /** `to_lowercase` on ASCII text: each capital becomes its small letter,
      every other character is kept, and no capital is left. */
  function Lower(s: string): (r: string)
    ensures |r| == |s|
    ensures forall i | 0 <= i < |s| :: 'A' <= s[i] <= 'Z' ==> r[i] as int == s[i] as int + 32
    ensures forall i | 0 <= i < |s| :: !('A' <= s[i] <= 'Z') ==> r[i] == s[i]
    ensures forall i | 0 <= i < |r| :: !('A' <= r[i] <= 'Z')
  {
    seq(|s|, i requires 0 <= i < |s| => LowerChar(s[i]))
  }

  /** Two addresses that differ only in letter case. */
  predicate SameAddress(a: Address, b: Address) {
    Lower(a) == Lower(b)
  }

  /** `watch.iter().any(|a| lower(a) == key)`, scanning left to right. */
  function AnyMatches(watch: seq<Address>, key: string): (r: bool)
    ensures r <==> exists a | a in watch :: Lower(a) == key
  {
    if |watch| == 0 then false
    else if Lower(watch[0]) == key then true
    else
      assert watch == [watch[0]] + watch[1..];
      AnyMatches(watch[1..], key)
  }

  datatype Flags = Flags(isIn: bool, isOut: bool)

  /** The `is_in`/`is_out` flags of a transfer from `from` to `to`. */
  function Classify(watch: seq<Address>, from: Address, to: Address): (r: Flags)
    ensures r.isIn <==> exists a | a in watch :: SameAddress(a, to)
    ensures r.isOut <==> exists a | a in watch :: SameAddress(a, from)
  {
    Flags(AnyMatches(watch, Lower(to)), AnyMatches(watch, Lower(from)))
  }

  /** A transfer from a watched address to itself is both inbound and
      outbound. */
  lemma SelfTransferBothWays(watch: seq<Address>, x: Address)
    requires x in watch
    ensures Classify(watch, x, x) == Flags(true, true)
  {
    assert SameAddress(x, x);
  }

  /** A transfer between two unwatched addresses is neither. */
  lemma UnwatchedTransferNeither(watch: seq<Address>, from: Address, to: Address)
    requires forall a | a in watch :: !SameAddress(a, from) && !SameAddress(a, to)
    ensures Classify(watch, from, to) == Flags(false, false)
  {
  }

  /** The classification does not depend on letter case. */
  lemma ClassifyIgnoresCase(watch: seq<Address>, from: Address, from': Address, to: Address, to': Address)
    requires SameAddress(from, from') && SameAddress(to, to')
    ensures Classify(watch, from, to) == Classify(watch, from', to')
  {
  }
}

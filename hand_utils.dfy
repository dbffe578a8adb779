/** Operations over a hand of cards that the bot builds its decisions from:
    the stream operations it uses (filter, findFirst, min by a key) and the
    helper queries of its utility class (the manilhas in hand, the threes in
    hand, the strongest, second strongest and weakest card). The utility
    class's own code is not part of this model: each helper is given the
    natural definition, and its contract states only what the bot relies on. */
module HandUtils {
  import opened Cards

  datatype Option<T> = None | Some(value: T)

  /** The cards of `s` that satisfy `p`, in their order in `s`: each card
      occurs as often as it does in `s` if it satisfies `p`, and not at all
      otherwise. */
  function Filter(s: seq<Card>, p: Card -> bool): (r: seq<Card>)
    ensures forall c :: multiset(r)[c] == if p(c) then multiset(s)[c] else 0
    ensures forall c :: c in r <==> c in s && p(c)
    ensures (forall k | 0 <= k < |s| :: p(s[k])) ==> r == s
    ensures |r| <= |s|
  {
    if s == [] then []
    else
      var rest := Filter(s[1..], p);
      assert s == [s[0]] + s[1..];
      if p(s[0]) then [s[0]] + rest else rest
  }

  /** Position of the first card of `s` that satisfies `p`, if any. */
  function FindFirst(s: seq<Card>, p: Card -> bool): (r: Option<nat>)
    ensures r.None? <==> forall k | 0 <= k < |s| :: !p(s[k])
    ensures r.Some? ==> r.value < |s| && p(s[r.value])
    ensures r.Some? ==> forall k | 0 <= k < r.value :: !p(s[k])
  {
    if s == [] then None
    else if p(s[0]) then Some(0)
    else
      match FindFirst(s[1..], p)
      case None => None
      case Some(i) => Some(i + 1)
  }

  /** Position of a card of least `key` among the cards of `s` that satisfy
      `p`; when several share the least key, the first of them. */
  function FirstMin(s: seq<Card>, p: Card -> bool, key: Card -> int): (r: Option<nat>)
    ensures r.None? <==> forall k | 0 <= k < |s| :: !p(s[k])
    ensures r.Some? ==> r.value < |s| && p(s[r.value])
    ensures r.Some? ==> forall k | 0 <= k < |s| && p(s[k]) :: key(s[r.value]) <= key(s[k])
    ensures r.Some? ==> forall k | 0 <= k < r.value && p(s[k]) :: key(s[r.value]) < key(s[k])
  {
    if s == [] then None
    else
      var rest := FirstMin(s[1..], p, key);
      if !p(s[0]) then
        (match rest case None => None case Some(i) => Some(i + 1))
      else
        match rest
        case None => Some(0)
        case Some(i) => if key(s[0]) <= key(s[i + 1]) then Some(0) else Some(i + 1)
  }

  /** The manilhas in hand, in hand order. */
  function Manilhas(hand: seq<Card>, vira: Card): (r: seq<Card>)
    ensures forall c :: c in r <==> c in hand && IsManilha(c, vira)
    ensures forall c :: multiset(r)[c] == if IsManilha(c, vira) then multiset(hand)[c] else 0
  {
    Filter(hand, c => IsManilha(c, vira))
  }

  /** The cards of rank Three in hand, in hand order. */
  function Threes(hand: seq<Card>): (r: seq<Card>)
    ensures forall c :: c in r <==> c in hand && c.rank == Three
  {
    Filter(hand, (c: Card) => c.rank == Three)
  }

  /** Position of a card of greatest strength in a non-empty hand. */
  function StrongestIndex(hand: seq<Card>, vira: Card): (i: nat)
    requires |hand| > 0
    ensures i < |hand|
    ensures forall k | 0 <= k < |hand| :: Value(hand[k], vira) <= Value(hand[i], vira)
  {
    var key := c => -Value(c, vira);
    var r := FirstMin(hand, _ => true, key);
    assert (_ => true)(hand[0]);
    r.value
  }

  /** A card of greatest strength in a non-empty hand. */
  function Strongest(hand: seq<Card>, vira: Card): (c: Card)
    requires |hand| > 0
    ensures c in hand
    ensures forall d | d in hand :: Value(d, vira) <= Value(c, vira)
  {
    hand[StrongestIndex(hand, vira)]
  }

  /** A card of least strength in a non-empty hand. */
  function Weakest(hand: seq<Card>, vira: Card): (c: Card)
    requires |hand| > 0
    ensures c in hand
    ensures forall d | d in hand :: Value(c, vira) <= Value(d, vira)
  {
    var r := FirstMin(hand, _ => true, c => Value(c, vira));
    assert (_ => true)(hand[0]);
    hand[r.value]
  }

  /** Position of the first occurrence of `c` in `s`. */
  function IndexOf(s: seq<Card>, c: Card): (j: nat)
    requires c in s
    ensures j < |s| && s[j] == c
    ensures forall k | 0 <= k < j :: s[k] != c
  {
    if s[0] == c then 0 else 1 + IndexOf(s[1..], c)
  }

  /** `s` without its element at position `j`. */
  function RemoveAt(s: seq<Card>, j: nat): (r: seq<Card>)
    requires j < |s|
    ensures |r| == |s| - 1
    ensures forall k | 0 <= k < j :: r[k] == s[k]
    ensures forall k | j <= k < |r| :: r[k] == s[k + 1]
  {
    s[..j] + s[j + 1..]
  }

  /** The strongest card of the hand once `strongest` (its first occurrence)
      is set aside: a card at another position than `strongest`'s that is at
      least as strong as every card except `strongest`. */
  function SecondStrongest(hand: seq<Card>, strongest: Card, vira: Card): (c: Card)
    requires |hand| >= 2 && strongest in hand
    ensures exists i | 0 <= i < |hand| :: i != IndexOf(hand, strongest) && hand[i] == c
    ensures forall k | 0 <= k < |hand| && k != IndexOf(hand, strongest) :: Value(hand[k], vira) <= Value(c, vira)
  {
    var j := IndexOf(hand, strongest);
    var rest := RemoveAt(hand, j);
    var i := StrongestIndex(rest, vira);
    var at := if i < j then i else i + 1;
    assert hand[at] == rest[i];
    assert forall k | 0 <= k < |hand| && k != j :: hand[k] == rest[if k < j then k else k - 1];
    hand[at]
  }

  /** Filtering keeps the whole sequence only if every card passes: a card
      that fails `p` makes the result strictly shorter. */
  lemma {:induction false} FilterDropsFailing(s: seq<Card>, p: Card -> bool, k: nat)
    requires k < |s| && !p(s[k])
    ensures |Filter(s, p)| < |s|
  {
    if k > 0 {
      FilterDropsFailing(s[1..], p, k - 1);
    }
  }
}

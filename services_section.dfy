/** The services carousel: a ring of five cards turned by two buttons, each
    card styled by its position relative to the current one. */
module ServicesSection {
  import opened RingIndex

  /** `services.length`. */
  const ServiceCount := 5

  datatype Side = Left | Right

  /** The styling tiers of the position chain: the front card, the cards
      one step away, the cards two steps away, and the hidden default. */
  datatype Tier = Front | Adjacent(side: Side) | TwoAway(side: Side) | Hidden

  /** `(index - currentIndex + services.length) % services.length`. */
  function CardPosition(index: int, current: int): int
  {
    Offset(index, current, ServiceCount)
  }

  /** The tier chosen by the `if` chain on `position`. */
  function TierOf(position: int): Tier
  {
    if position == 0 then Front
    else if position == 1 || position == ServiceCount - 1 then
      Adjacent(if position == 1 then Right else Left)
    else if position == 2 || position == ServiceCount - 2 then
      TwoAway(if position == 2 then Right else Left)
    else Hidden
  }

  /** `isActive`: only this card shows the "Book Now" link. */
  predicate IsActive(index: int, current: int)
  {
    CardPosition(index, current) == 0
  }

  /** Every position of the ring gets a visible tier whose distance is the
      ring distance from the front card; cards ahead of it sit on the right,
      cards behind it on the left. */
  lemma TierLayout(p: int)
    requires 0 <= p < ServiceCount
    ensures TierOf(p) != Hidden
    ensures TierOf(p) == Front <==> p == 0
    ensures TierOf(p).Adjacent? <==> p == 1 || p == ServiceCount - 1
    ensures TierOf(p).TwoAway? <==> p == 2 || p == ServiceCount - 2
    ensures p != 0 ==> TierOf(p).side == if p <= ServiceCount / 2 then Right else Left
  {
  }

  /** With a valid current card, exactly one card is active, no card falls
      through to the hidden default, and the neighbours reached by the two
      buttons flank the front card on their own sides. */
  lemma CardsAroundCurrent(current: int)
    requires 0 <= current < ServiceCount
    ensures forall index | 0 <= index < ServiceCount :: IsActive(index, current) <==> index == current
    ensures forall index | 0 <= index < ServiceCount :: TierOf(CardPosition(index, current)) != Hidden
    ensures TierOf(CardPosition(Succ(current, ServiceCount), current)) == Adjacent(Right)
    ensures TierOf(CardPosition(Pred(current, ServiceCount), current)) == Adjacent(Left)
  {
    OffsetBijective(current, ServiceCount);
    forall index | 0 <= index < ServiceCount
      ensures TierOf(CardPosition(index, current)) != Hidden
    {
      TierLayout(CardPosition(index, current));
    }
  }

  /** The component's state: the index of the front card. */
  class ServicesCarousel {
    var currentIndex: int

    ghost predicate Valid()
      reads this
    {
      0 <= currentIndex < ServiceCount
    }

    constructor ()
      ensures Valid() && currentIndex == 0
    {
      currentIndex := 0;
    }

    /** `nextService`. */
    method NextService()
      requires Valid()
      modifies this
      ensures Valid()
      ensures currentIndex == Succ(old(currentIndex), ServiceCount)
    {
      currentIndex := (currentIndex + 1) % ServiceCount;
    }

    /** `prevService`. */
    method PrevService()
      requires Valid()
      modifies this
      ensures Valid()
      ensures currentIndex == Pred(old(currentIndex), ServiceCount)
    {
      currentIndex := (currentIndex - 1 + ServiceCount) % ServiceCount;
    }
  }

  /** The buttons' contracts compose: back after forward restores the card,
      and five presses of "next" are a full turn. */
  method ButtonsRoundTrip(c: ServicesCarousel)
    requires c.Valid()
    modifies c
    ensures c.Valid() && c.currentIndex == old(c.currentIndex)
  {
    ghost var start := c.currentIndex;
    c.NextService();
    c.PrevService();
    SuccPredInverse(start, ServiceCount);
    assert c.currentIndex == start;
    c.NextService();
    c.NextService();
    c.NextService();
    c.NextService();
    c.NextService();
    FullTurn(start, ServiceCount);
    assert SuccIter(start, 5, ServiceCount) == c.currentIndex;
  }
}

/** The testimonial rotation: an active index stepped by a timer or set by a
    dot, and each testimonial's role relative to it. */
module TestimonialsSection {
  import opened RingIndex

  /** `testimonials.length`. */
  const TestimonialCount := 5

  /** How a testimonial is placed: in front, on the left as the previous
      one, on the right as the next one, or hidden. */
  datatype Role = Active | Previous | Following | Hidden

  /** `isPrev`'s index: `(activeIndex - 1 + testimonials.length) % testimonials.length`. */
  function PrevIndex(active: int): int
  {
    Pred(active, TestimonialCount)
  }

  /** `isNext`'s index: `(activeIndex + 1) % testimonials.length`. */
  function NextIndex(active: int): int
  {
    Succ(active, TestimonialCount)
  }

  /** The `isActive` / `isPrev` / `isNext` chain, in that order of precedence. */
  function RoleOf(index: int, active: int): Role
  {
    if index == active then Active
    else if index == PrevIndex(active) then Previous
    else if index == NextIndex(active) then Following
    else Hidden
  }

  /** The dot drawn wide and gold. */
  predicate DotHighlighted(index: int, active: int)
  {
    index == active
  }

  /** The neighbours are `(active + 4) % 5` and `(active + 1) % 5`, and with
      five testimonials the active one and its two neighbours are distinct. */
  lemma NeighboursDistinct(active: int)
    requires 0 <= active < TestimonialCount
    ensures PrevIndex(active) == (active + 4) % 5 && NextIndex(active) == (active + 1) % 5
    ensures active != PrevIndex(active) && active != NextIndex(active)
    ensures PrevIndex(active) != NextIndex(active)
  {
  }

  /** Exactly one testimonial is active and its dot is the highlighted one;
      the previous and next roles go to the two neighbours. */
  lemma RolesAroundActive(active: int)
    requires 0 <= active < TestimonialCount
    ensures forall i | 0 <= i < TestimonialCount :: RoleOf(i, active) == Active <==> i == active
    ensures forall i | 0 <= i < TestimonialCount :: DotHighlighted(i, active) <==> RoleOf(i, active) == Active
    ensures RoleOf(PrevIndex(active), active) == Previous
    ensures RoleOf(NextIndex(active), active) == Following
  {
    NeighboursDistinct(active);
  }

  /** The testimonials nobody sees. */
  function HiddenIndices(active: int): set<int>
  {
    set i | 0 <= i < TestimonialCount && RoleOf(i, active) == Hidden
  }

  /** With five testimonials exactly two are hidden: the ones two steps away. */
  lemma ExactlyTwoHidden(active: int)
    requires 0 <= active < TestimonialCount
    ensures HiddenIndices(active) == {(active + 2) % 5, (active + 3) % 5}
    ensures |HiddenIndices(active)| == 2
  {
    var h := HiddenIndices(active);
    var two, three := (active + 2) % 5, (active + 3) % 5;
    forall i | i in h ensures i == two || i == three { }
    assert two in h && three in h;
    assert h == {two, three};
  }

  /** The component's state: the active index. */
  class TestimonialCarousel {
    var activeIndex: int

    ghost predicate Valid()
      reads this
    {
      0 <= activeIndex < TestimonialCount
    }

    constructor ()
      ensures Valid() && activeIndex == 0
    {
      activeIndex := 0;
    }

    /** The interval callback's update: `(current + 1) % testimonials.length`. */
    method Rotate()
      requires Valid()
      modifies this
      ensures Valid()
      ensures activeIndex == NextIndex(old(activeIndex))
    {
      activeIndex := (activeIndex + 1) % TestimonialCount;
    }

    /** A dot's click: `setActiveIndex(index)`; dots exist only for the
        indices of the list. */
    method SelectDot(index: int)
      requires 0 <= index < TestimonialCount
      modifies this
      ensures Valid()
      ensures activeIndex == index
    {
      activeIndex := index;
    }
  }

  /** Five rotations bring the first testimonial back. */
  method FiveRotations(t: TestimonialCarousel)
    requires t.Valid()
    modifies t
    ensures t.Valid() && t.activeIndex == old(t.activeIndex)
  {
    ghost var start := t.activeIndex;
    t.Rotate();
    t.Rotate();
    t.Rotate();
    t.Rotate();
    t.Rotate();
    FullTurn(start, TestimonialCount);
    assert SuccIter(start, 5, TestimonialCount) == t.activeIndex;
  }
}

/** The FAQ accordion: a single optional open item id. */
module FaqSection {
  import opened Wrappers

  /** The component's state: `openItem`, `null` when every answer is closed. */
  class FaqAccordion {
    var openItem: Option<int>

    /** The first question starts open. */
    constructor ()
      ensures openItem == Some(1) && IsOpen(1)
    {
      openItem := Some(1);
    }

    /** Whether item `id` is drawn open (`openItem === item.id`). */
    predicate IsOpen(id: int)
      reads this
    {
      openItem == Some(id)
    }

    /** `toggleItem(id)`: close the item if it is the open one, otherwise
        make it the only open one. */
    method ToggleItem(id: int)
      modifies this
      ensures old(openItem) == Some(id) ==> openItem == None
      ensures old(openItem) != Some(id) ==> openItem == Some(id)
      ensures forall other | other != id :: !IsOpen(other)
    {
      openItem := if openItem == Some(id) then None else Some(id);
    }
  }

  /** Whatever the state, at most one answer is open. */
  lemma AtMostOneOpen(f: FaqAccordion, i: int, j: int)
    requires f.IsOpen(i) && f.IsOpen(j)
    ensures i == j
  {
  }

  /** Toggling the open item twice leaves it open again. */
  method DoubleToggle(f: FaqAccordion, id: int)
    requires f.IsOpen(id)
    modifies f
    ensures f.IsOpen(id)
  {
    f.ToggleItem(id);
    assert f.openItem == None;
    f.ToggleItem(id);
  }
}

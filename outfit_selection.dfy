/**
 * The per-slot selection of the outfit builder (screens/HomeScreen.tsx):
 * one optional label per slot (shirt, pants, shoes); pressing an item
 * toggles its label in its slot, and items without a slot do nothing.
 */
module OutfitSelection {
  import opened Common

  datatype Slot = Shirt | Pants | Shoes

  /** `selectedClothing`: an absent key is `None`. */
  datatype Selection = Selection(shirt: Option<string>, pants: Option<string>, shoes: Option<string>)

  const Empty := Selection(None, None, None)

  function Get(s: Selection, slot: Slot): Option<string> {
    match slot
    case Shirt => s.shirt
    case Pants => s.pants
    case Shoes => s.shoes
  }

  function Set(s: Selection, slot: Slot, v: Option<string>): (r: Selection)
    ensures Get(r, slot) == v
    ensures forall other :: other != slot ==> Get(r, other) == Get(s, other)
  {
    match slot
    case Shirt => s.(shirt := v)
    case Pants => s.(pants := v)
    case Shoes => s.(shoes := v)
  }

  /** `handleItemPress(label, type)`, the label passed as `name`. */
  function Press(s: Selection, name: string, slot: Option<Slot>): (r: Selection)
    ensures slot.None? ==> r == s
    ensures slot.Some? && Get(s, slot.value) == Some(name) ==> Get(r, slot.value) == None
    ensures slot.Some? && Get(s, slot.value) != Some(name) ==> Get(r, slot.value) == Some(name)
    ensures slot.Some? ==> forall other :: other != slot.value ==> Get(r, other) == Get(s, other)
  {
    match slot
    case None => s
    case Some(t) => Set(s, t, if Get(s, t) == Some(name) then None else Some(name))
  }

  /** `isSelected`: the item has a slot and its slot holds its label. */
  predicate IsSelected(s: Selection, name: string, slot: Option<Slot>) {
    slot.Some? && Get(s, slot.value) == Some(name)
  }

  /** A press on an item with a slot flips whether that item is shown as selected. */
  lemma PressFlipsSelected(s: Selection, name: string, slot: Slot)
    ensures IsSelected(Press(s, name, Some(slot)), name, Some(slot)) <==> !IsSelected(s, name, Some(slot))
  {
  }

  /** Two presses on the same item undo each other when its slot was empty or already held it. */
  lemma PressTwice(s: Selection, name: string, slot: Slot)
    requires Get(s, slot) == None || Get(s, slot) == Some(name)
    ensures Press(Press(s, name, Some(slot)), name, Some(slot)) == s
  {
    var r := Press(Press(s, name, Some(slot)), name, Some(slot));
    assert forall t :: Get(r, t) == Get(s, t);
    assert r.shirt == Get(r, Shirt) && r.pants == Get(r, Pants) && r.shoes == Get(r, Shoes);
  }

  /** When the slot held a different item, two presses leave it empty rather than restoring it. */
  lemma PressTwiceReplaced(s: Selection, name: string, slot: Slot)
    requires Get(s, slot).Some? && Get(s, slot) != Some(name)
    ensures Get(Press(Press(s, name, Some(slot)), name, Some(slot)), slot) == None
  {
  }

  /** Pressing items never selects two labels in one slot: a slot holds at most the last label pressed. */
  lemma SelectedIsLastPress(s: Selection, name: string, other: string, slot: Slot)
    requires name != other
    ensures !IsSelected(Press(s, name, Some(slot)), other, Some(slot))
  {
  }
}

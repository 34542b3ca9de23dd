/** The select boxes that stand for an empty text field by a placeholder item
    ('none' for shipping line, agent, sales and client; 'No Holding' for the
    holding): `value={field || placeholder}` and
    `onValueChange={v => set(v === placeholder ? '' : v)}`. */
module Selects {

  /** The item a select shows for a stored value. */
  function Shown(stored: string, placeholder: string): (item: string)
    ensures placeholder != "" ==> item != ""
    ensures item == placeholder <==> stored == "" || stored == placeholder
    ensures stored != "" ==> item == stored
  {
    if stored == "" then placeholder else stored
  }

  /** The value stored when an item is chosen. */
  function Stored(chosen: string, placeholder: string): (value: string)
    ensures value == "" <==> chosen == placeholder || chosen == ""
    ensures value != "" ==> value == chosen
  {
    if chosen == placeholder then "" else chosen
  }

  /** Choosing the item that is shown stores the value back, except for a
      stored value that is literally the placeholder, which becomes empty. */
  lemma StoredAfterShown(stored: string, placeholder: string)
    requires placeholder != ""
    ensures Stored(Shown(stored, placeholder), placeholder) == stored <==> stored != placeholder
  {
  }

  /** After choosing an item the select shows that item again. */
  lemma ShownAfterStored(chosen: string, placeholder: string)
    requires placeholder != ""
    ensures chosen != "" ==> Shown(Stored(chosen, placeholder), placeholder) == chosen
  {
  }
}

/** The task record of the service: an identifier fixed once at construction and a
    text that can be replaced afterwards. */
module Tasks {

  class Task {
    /** The identifier never changes after construction (a `final` field). */
    const id: int
    var text: string

    constructor (id: int, text: string)
      ensures this.id == id && this.text == text
      ensures GetId() == id && GetText() == text
    {
      this.id := id;
      this.text := text;
    }

    function GetId(): int
    {
      id
    }

    function GetText(): string
      reads this
    {
      text
    }

    /** Replaces the text; only this object's `text` may change. */
    method SetText(text: string)
      modifies this`text
      ensures GetText() == text
    {
      this.text := text;
    }
  }
}

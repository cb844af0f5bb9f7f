/** A catalog item: the parsed JSON object lib/getItems.tsx reads from a data file, together
    with the three fields the program writes onto that object in place — `_sourceFile` and
    `_image` while the catalog is loaded, `_recycleValue` while it is classified. */
module Items {
  import opened Basics
  import opened JsValues

  class Item {
    /** The object as parsed; the program never changes the fields it read. */
    const props: Json
    /** `_sourceFile`: the data file the object came from. */
    var sourceFile: Option<string>
    /** `_image`: the public path of the item's picture, or the `_image` member the parsed
        object already carried when no picture was resolved. */
    var image: Value
    /** `_recycleValue`: the one-level recycle value. */
    var recycleValue: Option<Num>

    constructor (props: Json)
      ensures this.props == props
      ensures sourceFile.None? && image == Get(Some(props), "_image") && recycleValue.None?
    {
      this.props := props;
      sourceFile := None;
      image := Get(Some(props), "_image");
      recycleValue := None;
    }
  }

  /** `String(it.id)`: an item without an id is keyed "undefined". */
  function IdOf(it: Json): string
  {
    ToStrOpt(Get(Some(it), "id"))
  }
}

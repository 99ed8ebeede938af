/** The `Paste` record of paste.go, the value type of every store. */
module PasteRecord {
  import opened Base

  /** One stored paste. `style` and `content` are the highlighter's trusted CSS and HTML. */
  datatype Paste = Paste(
    path: string,
    user: string,
    lang: string,
    source: string,
    expire: Instant,
    style: string,
    content: string,
    created: Instant)

  /** Go's zero value `Paste{}`. */
  const ZeroPaste: Paste := Paste("", "", "", "", 0, "", "", 0)
}

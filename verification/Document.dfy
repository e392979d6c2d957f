/** The builder's document types (internal/builder/model.go). A Go pointer that may be nil is an
    Option; JSON numbers are exact decimals. */
module Document {
  import opened Text
  import opened LuaLiteral

  datatype Border = Border(width: int, color: string)

  datatype CellDef = CellDef(id: string, width: int, bg: string, border: Option<Border>, align: string)

  datatype Control = Control(name: string, ctype: string, opts: map<string, Json>, inline: map<string, string>)

  datatype Form = Form(
    name: string,
    title: string,
    layout: string,
    align: string,
    gap: Option<int>,
    cells: seq<Option<CellDef>>,
    controls: seq<Option<Control>>,
    handlers: map<string, seq<string>>,
    bodies: map<string, string>,
    notes: seq<string>,
    modal: bool,
    gapX: real,
    gapY: real,
    lines: seq<(int, int)>,
    indent: string,
    hasShow: bool,
    orphanKeys: seq<string>
  )

  /** The show options are the default ones. */
  predicate PlainShow(f: Form) { !f.modal && f.gapX == 0.0 && f.gapY == 0.0 }

  datatype Doc = Doc(version: int, forms: seq<Option<Form>>, activeForm: string, notes: seq<string>)

  const DOC_VERSION := 3

  /** The control types the builder understands. */
  const TYPES := [
    "label", "textbox", "button", "combo", "list", "table", "checkbox", "radio", "looper", "chart",
    "image", "tree", "tab", "topbar", "sidebar", "footer", "ai_chat"
  ]
}

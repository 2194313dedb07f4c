/** The label template the printer script ships with: a ZPL label with ten
    replacement fields, `{Lote}` and `{Paquete}` among them twice (once on
    their own line, once in the barcode). The ZPL text between the fields is
    opaque: the lemmas below hold whatever that text is, and `ZplText` is the
    text the script uses. */
module Label {
  import opened Wrappers
  import opened Dates
  import opened Rows
  import opened Templates

  /** The literal ZPL text of a label, cut at its fields: nine pieces before
      the barcode's data field and one after it. */
  datatype ZplPieces = ZplPieces(
    p0: string, p1: string, p2: string, p3: string, p4: string,
    p5: string, p6: string, p7: string, p8: string, tail: string)

  /** The label with `text` as its literal parts. */
  function LabelWith(text: ZplPieces): Template {
    LabelHead(text) + BarcodeData() + Literal(text.tail)
  }

  /** Everything before the barcode's data field. */
  function LabelHead(text: ZplPieces): Template
  {
    Literal(text.p0) + [Field("DescProducto")] +
    Literal(text.p1) + [Field("DescProveedor")] +
    Literal(text.p2) + [Field("Lote")] +
    Literal(text.p3) + [Field("Paquete")] +
    Literal(text.p4) + [Field("Fecha")] +
    Literal(text.p5) + [Field("Variante")] +
    Literal(text.p6) + [Field("Agricultor")] +
    Literal(text.p7) + [Field("Origen")] +
    Literal(text.p8)
  }

  /** The barcode's data field: lot and package joined by a hyphen. */
  function BarcodeData(): Template {
    Literal("^FD") + [Field("Lote")] + Literal("-") + [Field("Paquete")] + Literal("^FS")
  }

  /** The ZPL text the script ships with. */
  const ZplText: ZplPieces := ZplPieces(
    " \n                ^XA\n                ^CI28\n                ^PW560\n                ^LL2435\n                ^POI\n                ^LH20,1440\n\n                ^FO20,0\n                ^A0N,45,45\n                ^FDPATATAS HIJOLUSA S.L.^FS\n\n                ^FO20,80\n                ^A0N,35,35\n                ^FD",
    "^FS\n\n                ^FO20,150\n                ^A0N,30,30\n                ^FDProveedor:^FS\n                ^FO200,150\n                ^A0N,30,30\n                ^FD",
    "^FS\n\n                ^FO20,210\n                ^A0N,30,30\n                ^FDLote:^FS\n                ^FO200,210\n                ^A0N,30,30\n                ^FD",
    "^FS\n\n                ^FO20,270\n                ^A0N,30,30\n                ^FDPaquete:^FS\n                ^FO200,270\n                ^A0N,30,30\n                ^FD",
    "^FS\n\n                ^FO20,330\n                ^A0N,30,30\n                ^FDFecha:^FS\n                ^FO200,330\n                ^A0N,30,30\n                ^FD",
    "^FS\n\n                ^FO20,390\n                ^A0N,30,30\n                ^FDVariante:^FS\n                ^FO200,390\n                ^A0N,30,30\n                ^FD",
    "^FS\n\n                ^FO20,450\n                ^A0N,30,30\n                ^FDAgricultor:^FS\n                ^FO200,450\n                ^A0N,30,30\n                ^FD",
    "^FS\n\n                ^FO20,510\n                ^A0N,30,30\n                ^FDOrigen:^FS\n                ^FO200,510\n                ^A0N,30,30\n                ^FD",
    "^FS\n\n                ^FO40,580\n                ^BY2,2,100\n                ^BCN,100,Y,N,N\n                ",
    "\n\n                ^XZ\n                "
  )

  /** The script's label template, as tokenised pieces: the ten fields
      listed in `LabelFields`, and text that `str.format` reads as exactly
      these pieces. */
  function LabelTemplate(): (t: Template)
    ensures FieldNames(t) == LabelFields
    ensures Tokenize(Untokenize(t)) == Some(t)
  {
    LabelFieldNames(ZplText);
    LabelIsPlain(ZplText);
    LabelWith(ZplText)
  }

  const LabelFields: seq<string> :=
    ["DescProducto", "DescProveedor", "Lote", "Paquete", "Fecha",
     "Variante", "Agricultor", "Origen", "Lote", "Paquete"]

  /** The columns the spreadsheet has to supply for the label to render, in
      the order the template first uses them; `Fecha` is not among them,
      since normalisation always provides it. */
  const LabelColumns: seq<string> :=
    ["DescProducto", "DescProveedor", "Lote", "Paquete", "Variante", "Agricultor", "Origen"]

  /** One step of a template: a field followed by literal text. */
  lemma FieldNamesStep(t: Template, n: string, s: string)
    ensures FieldNames(t + [Field(n)] + Literal(s)) == FieldNames(t) + [n]
  {
    FieldNamesAppend(t, [Field(n)]);
    FieldNamesAppend(t + [Field(n)], Literal(s));
    FieldNamesLiteral(s);
  }

  lemma FieldNamesOfHead(text: ZplPieces)
    ensures FieldNames(LabelHead(text)) == LabelFields[..8]
  {
    FieldNamesLiteral(text.p0);
    var h1 := Literal(text.p0);
    FieldNamesStep(h1, "DescProducto", text.p1);
    var h2 := h1 + [Field("DescProducto")] + Literal(text.p1);
    FieldNamesStep(h2, "DescProveedor", text.p2);
    var h3 := h2 + [Field("DescProveedor")] + Literal(text.p2);
    FieldNamesStep(h3, "Lote", text.p3);
    var h4 := h3 + [Field("Lote")] + Literal(text.p3);
    FieldNamesStep(h4, "Paquete", text.p4);
    var h5 := h4 + [Field("Paquete")] + Literal(text.p4);
    FieldNamesStep(h5, "Fecha", text.p5);
    var h6 := h5 + [Field("Fecha")] + Literal(text.p5);
    FieldNamesStep(h6, "Variante", text.p6);
    var h7 := h6 + [Field("Variante")] + Literal(text.p6);
    FieldNamesStep(h7, "Agricultor", text.p7);
    var h8 := h7 + [Field("Agricultor")] + Literal(text.p7);
    FieldNamesStep(h8, "Origen", text.p8);
  }

  lemma FieldNamesOfBarcode()
    ensures FieldNames(BarcodeData()) == ["Lote", "Paquete"]
  {
    FieldNamesLiteral("^FD");
    FieldNamesStep(Literal("^FD"), "Lote", "-");
    FieldNamesStep(Literal("^FD") + [Field("Lote")] + Literal("-"), "Paquete", "^FS");
  }

  /** The label's fields in order: `Lote` and `Paquete` each occur twice. */
  lemma LabelFieldNames(text: ZplPieces)
    ensures FieldNames(LabelWith(text)) == LabelFields
    ensures LabelFields[2] == LabelFields[8] == "Lote" && LabelFields[3] == LabelFields[9] == "Paquete"
  {
    FieldNamesOfHead(text);
    FieldNamesOfBarcode();
    FieldNamesAppend(LabelHead(text), BarcodeData());
    FieldNamesAppend(LabelHead(text) + BarcodeData(), Literal(text.tail));
    FieldNamesLiteral(text.tail);
  }

  lemma LabelFieldsArePlain()
    ensures forall n | n in LabelFields :: PlainName(n)
  {
    var names := ["DescProducto", "DescProveedor", "Lote", "Paquete", "Fecha", "Variante", "Agricultor", "Origen"];
    forall k | 0 <= k < |names|
      ensures PlainName(names[k])
    {
      var n := names[k];
      assert forall i | 0 <= i < |n| :: !Reserved(n[i]);
      assert !('0' <= n[0] <= '9');
    }
    assert forall n | n in LabelFields :: n in names;
  }

  /** Every label field is a plain name, so written back as text the label
      tokenises to itself: `str.format` reads it as nothing but literal text
      and plain `{Name}` fields. */
  lemma LabelIsPlain(text: ZplPieces)
    ensures PlainTemplate(LabelWith(text))
    ensures Tokenize(Untokenize(LabelWith(text))) == Some(LabelWith(text))
  {
    var t := LabelWith(text);
    LabelFieldNames(text);
    LabelFieldsArePlain();
    FieldNamesOccur(t);
    forall i | 0 <= i < |t| && t[i].Field?
      ensures PlainName(t[i].name)
    {
      assert t[i].name in LabelFields;
    }
    TokenizeUntokenize(t);
  }

  /** A row renders exactly when it has all seven label columns; whatever
      else it holds, and whatever its `Fecha`, does not matter. */
  lemma LabelRendersIff(t: Template, row: Row)
    requires FieldNames(t) == LabelFields
    ensures Render(t, Normalised(row)).Ok? <==> forall c | c in LabelColumns :: c in row
  {
    var m := Normalised(row);
    FieldNamesOccur(t);
    if forall c | c in LabelColumns :: c in row {
      forall i | 0 <= i < |t| && t[i].Field?
        ensures t[i].name in m
      {
        assert t[i].name in LabelFields;
      }
    } else {
      var c :| c in LabelColumns && c !in row;
      assert c in FieldNames(t);
      var i :| 0 <= i < |t| && t[i] == Field(c);
      assert !AllPresent(t, m);
    }
  }

  /** The label columns are the template's field names without `Fecha` and
      without the repeated barcode fields. */
  lemma ColumnsOfFields()
    ensures |LabelColumns| == 7 && |LabelFields| == 10
    ensures forall j | 0 <= j < 7 ::
      LabelColumns[j] == LabelFields[if j < 4 then j else j + 1] && LabelColumns[j] != FechaColumn
    ensures LabelFields[4] == FechaColumn
    ensures LabelFields[8] == LabelFields[2] && LabelFields[9] == LabelFields[3]
  {
  }

  /** When a row does not render, the `KeyError` names the first label column,
      in template order, that the row lacks. */
  lemma LabelMissingColumn(t: Template, row: Row)
    requires FieldNames(t) == LabelFields && Render(t, Normalised(row)).Err?
    ensures var n := Render(t, Normalised(row)).error.name;
      exists k | 0 <= k < |LabelColumns| ::
        LabelColumns[k] == n && n !in row && forall j | 0 <= j < k :: LabelColumns[j] in row
  {
    var m := Normalised(row);
    RenderErrorIsFirstMissingName(t, m);
    ColumnsOfFields();
    var n := Render(t, m).error.name;
    var p :| 0 <= p < |LabelFields| && LabelFields[p] == n && n !in m
      && forall q | 0 <= q < p :: LabelFields[q] in m;
    if p > 3 {
      assert LabelFields[2] in m && LabelFields[3] in m;
    }
    var k := if p < 4 then p else p - 1;
    assert LabelColumns[k] == n;
    forall j | 0 <= j < k
      ensures LabelColumns[j] in row
    {
      assert LabelFields[if j < 4 then j else j + 1] in m;
    }
  }

  lemma BarcodeRenders(m: map<string, string>)
    requires Render(BarcodeData(), m).Ok?
    ensures "Lote" in m && "Paquete" in m
    ensures Render(BarcodeData(), m) == Ok("^FD" + m["Lote"] + "-" + m["Paquete"] + "^FS")
  {
    var a := Literal("^FD");
    var b := a + [Field("Lote")];
    var c := b + Literal("-");
    var d := c + [Field("Paquete")];
    RenderAppend(d, Literal("^FS"), m);
    RenderAppend(c, [Field("Paquete")], m);
    RenderAppend(b, Literal("-"), m);
    RenderAppend(a, [Field("Lote")], m);
    RenderLiteral("^FD", m);
    RenderLiteral("-", m);
    RenderLiteral("^FS", m);
    assert Render([Field("Lote")], m) == Ok(m["Lote"] + "");
    assert Render([Field("Paquete")], m) == Ok(m["Paquete"] + "");
    assert m["Lote"] + "" == m["Lote"] && m["Paquete"] + "" == m["Paquete"];
  }

  /** The barcode line of a rendered label carries the lot and the package,
      joined by a hyphen, whatever the ZPL text around it. */
  lemma LabelBarcode(head: Template, tail: Template, m: Fields)
    requires Render(head + BarcodeData() + tail, m).Ok?
    ensures "Lote" in m && "Paquete" in m
    ensures exists pre: string, post: string ::
      Render(head + BarcodeData() + tail, m).value ==
        pre + "^FD" + m["Lote"] + "-" + m["Paquete"] + "^FS" + post
  {
    RenderThree(head, BarcodeData(), tail, m);
    BarcodeRenders(m);
    var pre, post := Render(head, m).value, Render(tail, m).value;
    var bar := "^FD" + m["Lote"] + "-" + m["Paquete"] + "^FS";
    assert Render(head + BarcodeData() + tail, m).value == pre + bar + post;
    assert pre + bar + post == pre + "^FD" + m["Lote"] + "-" + m["Paquete"] + "^FS" + post;
  }

  /** A rendered label shows the row's date, as `DD/MM/YYYY`, when its `Fecha`
      cell holds one. */
  lemma LabelShowsDate(t: Template, row: Row)
    requires FieldNames(t) == LabelFields && Render(t, Normalised(row)).Ok?
    requires FechaColumn in row && row[FechaColumn].DateCell?
    ensures exists pre: string, post: string ::
      Render(t, Normalised(row)).value == pre + FormatDate(row[FechaColumn].date) + post
  {
    assert LabelFields[4] == FechaColumn;
    RenderContains(t, Normalised(row), FechaColumn);
  }

  /** A rendered label shows the text of every label column of its row. */
  lemma LabelShowsColumns(t: Template, row: Row, c: string)
    requires FieldNames(t) == LabelFields && Render(t, Normalised(row)).Ok? && c in LabelColumns
    ensures c in row
    ensures exists pre: string, post: string ::
      Render(t, Normalised(row)).value == pre + Str(row[c]) + post
  {
    assert c in LabelFields;
    RenderContains(t, Normalised(row), c);
  }
}

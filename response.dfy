/**
 * extract_text(): pulling the description out of an analysis-service
 * response. The duck-typed attribute probing of the source becomes a
 * tagged union of response shapes.
 */
module ResponseText {
  import opened Wrappers
  import PyText

  /**
   * One content part. kind is the part's "type" attribute ("" when it has
   * none); text is None when the part's "text" has no strip() method
   * (absent, None, a number), in which case part.text.strip() raises.
   */
  datatype Part = Part(kind: string, text: Option<string>)

  /** One output item; an item without "content" has no parts. */
  datatype Item = Item(content: seq<Part>)

  /**
   * The shapes a response can take. repr is the response's str() form.
   * Direct: the response has an "output_text" attribute (None when it has
   * no strip() method: None, a number); any nested output it also has is
   * kept but never read.
   * Nested: no "output_text", a list of output items.
   * Neither: no "output_text" and no "output".
   */
  datatype Response =
    | Direct(outputText: Option<string>, output: seq<Item>, repr: string)
    | Nested(output: seq<Item>, repr: string)
    | Neither(repr: string)

  predicate IsTextPart(p: Part)
  {
    p.kind == "output_text" || p.kind == "text"
  }

  /** The index of the first text-typed part of parts, if any. */
  function FirstInParts(parts: seq<Part>): (r: Option<nat>)
    ensures r.None? <==> forall j :: 0 <= j < |parts| ==> !IsTextPart(parts[j])
    ensures r.Some? ==> r.value < |parts| && IsTextPart(parts[r.value])
                        && forall j :: 0 <= j < r.value ==> !IsTextPart(parts[j])
  {
    if parts == [] then None
    else if IsTextPart(parts[0]) then Some(0)
    else match FirstInParts(parts[1..])
      case None => None
      case Some(j) => Some(j + 1)
  }

  /** No item before item i has a text part, and no part of item i before part j is one. */
  predicate NoneBefore(items: seq<Item>, i: nat, j: nat)
    requires i < |items| && j <= |items[i].content|
  {
    && (forall i', j' :: 0 <= i' < i && 0 <= j' < |items[i'].content| ==> !IsTextPart(items[i'].content[j']))
    && (forall j' :: 0 <= j' < j ==> !IsTextPart(items[i].content[j']))
  }

  /** Items then parts scanned in order: the position of the first text-typed part. */
  function FirstTextPart(items: seq<Item>): (r: Option<(nat, nat)>)
    ensures r.None? <==> forall i, j :: 0 <= i < |items| && 0 <= j < |items[i].content|
                                        ==> !IsTextPart(items[i].content[j])
    ensures r.Some? ==> var (i, j) := r.value;
                        && i < |items| && j < |items[i].content|
                        && IsTextPart(items[i].content[j]) && NoneBefore(items, i, j)
  {
    if items == [] then None
    else match FirstInParts(items[0].content)
      case Some(j) => Some((0, j))
      case None =>
        match FirstTextPart(items[1..])
        case None => None
        case Some((i, j)) => Some((i + 1, j))
  }

  /** The description extracted from a response; never fails. */
  function Extract(resp: Response): string
  {
    match resp
    case Direct(t, _, s) => if t.Some? then PyText.Strip(t.value) else s
    case Nested(items, s) =>
      (match FirstTextPart(items)
       case None => s
       case Some((i, j)) =>
         var p := items[i].content[j];
         if p.text.Some? then PyText.Strip(p.text.value) else s)
    case Neither(s) => s
  }

  /**
   * A present output_text decides the result whatever nested output exists:
   * its text stripped when it is a string, and the string form of the
   * response when strip() raises on it.
   */
  lemma ExtractDirect(t: string, output: seq<Item>, repr: string)
    ensures Extract(Direct(Some(t), output, repr)) == PyText.Strip(t)
    ensures Extract(Direct(None, output, repr)) == repr
    ensures forall other :: Extract(Direct(Some(t), other, repr)) == Extract(Direct(Some(t), output, repr))
  {
  }

  /** The first text-typed position is unique: any position meeting the contract is the one found. */
  lemma FirstTextPartAt(items: seq<Item>, i: nat, j: nat)
    requires i < |items| && j < |items[i].content|
    requires IsTextPart(items[i].content[j]) && NoneBefore(items, i, j)
    ensures FirstTextPart(items) == Some((i, j))
  {
    var r := FirstTextPart(items);
    assert r.Some?;
  }

  /** Without a direct field, the first text-typed part (items, then parts, in order) is stripped and returned. */
  lemma ExtractFirstPart(items: seq<Item>, repr: string, i: nat, j: nat)
    requires i < |items| && j < |items[i].content|
    requires IsTextPart(items[i].content[j]) && NoneBefore(items, i, j)
    ensures var p := items[i].content[j];
      Extract(Nested(items, repr)) == if p.text.Some? then PyText.Strip(p.text.value) else repr
  {
    FirstTextPartAt(items, i, j);
  }

  /** If no part is text-typed, the result is the response's string form. */
  lemma ExtractFallback(items: seq<Item>, repr: string)
    requires forall i, j :: 0 <= i < |items| && 0 <= j < |items[i].content|
                            ==> !IsTextPart(items[i].content[j])
    ensures Extract(Nested(items, repr)) == repr
    ensures Extract(Neither(repr)) == repr
  {
  }

  /**
   * The result is always either the response's string form or a stripped
   * text with no surrounding whitespace; no response makes extraction fail.
   */
  lemma ExtractShape(resp: Response)
    ensures var r := Extract(resp);
      r == resp.repr || (r == PyText.Strip(r) && (r == [] || (!PyText.IsSpace(r[0]) && !PyText.IsSpace(r[|r| - 1]))))
  {
    var r := Extract(resp);
    if r != resp.repr {
      match resp
      case Direct(t, _, _) => PyText.StripIdempotent(t.value);
      case Nested(items, _) =>
        var (i, j) := FirstTextPart(items).value;
        PyText.StripIdempotent(items[i].content[j].text.value);
    }
  }
}

/** AdminProductForm.jsx: the admin's create and edit form for a product. The
    sizes are edited as one comma-separated text: loading a product joins its
    sizes with ", ", and submitting splits the text on commas, trims each field
    and drops the empty ones. The route's `id` (empty when creating) decides
    whether the payload carries an id. The numeric inputs are held already
    parsed; `parseFloat` and `parseInt` are not modelled. */
module AdminProductForm {
  import opened Seqs
  import opened Models
  import opened Text

  const SIZE_SEPARATOR: string := ", "

  function NonEmpty(): string -> bool
  {
    (s: string) => s != ""
  }

  /** `sizes.split(',').map(s => s.trim()).filter(s => s !== '')`. */
  function ParseSizes(text: string): seq<string>
  {
    Filter(Map(Split(text, ','), Trim), NonEmpty())
  }

  /** Every parsed size is non-empty, trimmed and free of commas. */
  lemma ParsedSizesClean(text: string)
    ensures forall i :: 0 <= i < |ParseSizes(text)| ==>
      ParseSizes(text)[i] != "" && IsTrimmed(ParseSizes(text)[i]) && ',' !in ParseSizes(text)[i]
  {
    var fields := Split(text, ',');
    var trimmed := Map(fields, Trim);
    forall k | 0 <= k < |trimmed|
      ensures IsTrimmed(trimmed[k]) && ',' !in trimmed[k]
    {
      TrimKeepsOut(fields[k], ',');
    }
    FilterMemberAll(trimmed, NonEmpty());
  }

  /** Parsing reads the fields left to right: a comma-free first field yields
      its trimmed text, or nothing when it is blank, followed by the rest. */
  lemma ParseField(a: string, b: string)
    requires ',' !in a
    ensures ParseSizes(a + [','] + b) == (if IsBlank(a) then [] else [Trim(a)]) + ParseSizes(b)
  {
    var rest := Split(b, ',');
    SplitField(a, b, ',');
    MapAppend([a], rest, Trim);
    assert Map([a], Trim) == [Trim(a)];
    FilterAppend([Trim(a)], Map(rest, Trim), NonEmpty());
    FilterSingleton(Trim(a), NonEmpty());
    TrimEmptyIffBlank(a);
  }

  /** A space after a comma is trimmed away with its field. */
  lemma ParseLeadingSpace(t: string)
    ensures ParseSizes(" " + t) == ParseSizes(t)
  {
    var fields := Split(t, ',');
    SplitPrefix(" ", t, ',');
    assert Split(" " + t, ',') == [" " + fields[0]] + fields[1..];
    assert fields == [fields[0]] + fields[1..];
    TrimAfterSpace(' ', fields[0]);
    MapAppend([" " + fields[0]], fields[1..], Trim);
    MapAppend([fields[0]], fields[1..], Trim);
    assert Map([" " + fields[0]], Trim) == Map([fields[0]], Trim);
  }

  ghost predicate CleanSizes(sizes: seq<string>)
  {
    forall i :: 0 <= i < |sizes| ==> sizes[i] != "" && IsTrimmed(sizes[i]) && ',' !in sizes[i]
  }

  /** The empty text parses to no sizes. */
  lemma ParseEmpty()
    ensures ParseSizes("") == []
  {
    assert Split("", ',') == [""];
    assert Map([""], Trim) == [""];
    FilterSingleton("", NonEmpty());
  }

  /** A clean size on its own parses to itself. */
  lemma ParseSingle(x: string)
    requires x != "" && IsTrimmed(x) && ',' !in x
    ensures ParseSizes(x) == [x]
  {
    SplitWhole(x, ',');
    TrimTrimmed(x);
    assert Map([x], Trim) == [x];
    FilterSingleton(x, NonEmpty());
  }

  lemma SeparatorSplit(a: string, b: string)
    ensures a + SIZE_SEPARATOR + b == a + [','] + (" " + b)
  {
    assert SIZE_SEPARATOR == [','] + " ";
  }

  /** A list of two or more sizes is joined as its first size, a comma and the
      rest joined, behind one space. */
  lemma JoinFirst(x: string, rest: seq<string>)
    requires |rest| >= 1
    ensures Join([x] + rest, SIZE_SEPARATOR) == x + [','] + (" " + Join(rest, SIZE_SEPARATOR))
  {
    JoinCons(x, rest, SIZE_SEPARATOR);
    SeparatorSplit(x, Join(rest, SIZE_SEPARATOR));
  }

  /** One step of the round trip: a clean size in front of a list that parses back. */
  lemma RoundTripStep(x: string, rest: seq<string>)
    requires |rest| >= 1 && x != "" && IsTrimmed(x) && ',' !in x
    requires ParseSizes(Join(rest, SIZE_SEPARATOR)) == rest
    ensures ParseSizes(Join([x] + rest, SIZE_SEPARATOR)) == [x] + rest
  {
    var tail := Join(rest, SIZE_SEPARATOR);
    JoinFirst(x, rest);
    ParseField(x, " " + tail);
    assert !IsBlank(x) by {
      assert !IsSpace(x[0]);
    }
    TrimTrimmed(x);
    ParseLeadingSpace(tail);
  }

  /** Joining clean sizes for the form and parsing them back gives the same list. */
  lemma {:induction false} SizesRoundTrip(sizes: seq<string>)
    requires CleanSizes(sizes)
    ensures ParseSizes(Join(sizes, SIZE_SEPARATOR)) == sizes
  {
    if |sizes| == 0 {
      ParseEmpty();
    } else if |sizes| == 1 {
      ParseSingle(sizes[0]);
    } else {
      assert CleanSizes(sizes[1..]);
      SizesRoundTrip(sizes[1..]);
      RoundTripStep(sizes[0], sizes[1..]);
      assert sizes == [sizes[0]] + sizes[1..];
    }
  }

  /** The form's fields; `sizes` is the comma-separated text. */
  datatype ProductForm = ProductForm(
    name: string,
    category: string,
    price: real,
    stock: int,
    description: Option<string>,
    imageUrl: Option<string>,
    sizes: string)

  /** What is posted or put: the form with parsed sizes, and an id only when editing. */
  datatype ProductPayload = ProductPayload(
    id: Option<string>,
    name: string,
    category: string,
    price: real,
    stock: int,
    description: Option<string>,
    imageUrl: Option<string>,
    sizes: seq<string>)

  /** The edit mode's form, filled from the fetched product. */
  function FormOf(p: Product): ProductForm
  {
    ProductForm(p.name, p.category, p.price, p.stock, p.description, p.imageUrl, Join(p.sizes, SIZE_SEPARATOR))
  }

  /** `handleSubmit`'s payload: built from the form, then given the route id
      in edit mode (a non-empty `id`). */
  method SubmitPayload(form: ProductForm, routeId: string) returns (payload: ProductPayload)
    ensures payload.id.Some? <==> routeId != ""
    ensures payload.id.Some? ==> payload.id.value == routeId
    ensures payload.sizes == ParseSizes(form.sizes) && CleanSizes(payload.sizes)
    ensures (payload.name, payload.category, payload.price, payload.stock, payload.description, payload.imageUrl)
         == (form.name, form.category, form.price, form.stock, form.description, form.imageUrl)
  {
    ParsedSizesClean(form.sizes);
    payload := ProductPayload(None, form.name, form.category, form.price, form.stock, form.description,
                              form.imageUrl, ParseSizes(form.sizes));
    var isEditMode := routeId != "";
    if isEditMode {
      payload := payload.(id := Some(routeId));
    }
  }

  /** Opening a product with clean sizes for editing and saving the form
      unchanged sends its sizes back as they were. */
  lemma EditUnchangedKeepsProduct(p: Product)
    requires CleanSizes(p.sizes)
    ensures ParseSizes(FormOf(p).sizes) == p.sizes
  {
    SizesRoundTrip(p.sizes);
  }
}

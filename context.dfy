/**
  The product context: the text block describing the recommended products
  that is embedded in the system prompt.
 */
module ProductContext {
  import opened Text
  import opened Catalog

  /** First line of a non-empty context. */
  const Header: string := "Available products:"

  /**
    The line `- {name}: {description} (${price})` describing one product. It
    opens with the name after a dash and ends with the price in parentheses,
    and it holds a newline only if one of the printed fields does.
   */
  function ProductLine(p: Product): (line: string)
    ensures |line| == |p.name| + |p.description| + |p.price| + 8
    ensures line[..2] == "- " && line[2..2 + |p.name|] == p.name
    ensures line[2 + |p.name|..4 + |p.name|] == ": "
    ensures line[4 + |p.name|..4 + |p.name| + |p.description|] == p.description
    ensures line[|line| - |p.price| - 4..] == " ($" + p.price + ")"
    ensures '\n' in line <==> '\n' in p.name || '\n' in p.description || '\n' in p.price
  {
    "- " + p.name + ": " + p.description + " ($" + p.price + ")"
  }

  /** One line per product, in the given order. */
  function ProductLines(products: seq<Product>): (lines: seq<string>)
    ensures |lines| == |products|
    ensures forall k :: 0 <= k < |products| ==> lines[k] == ProductLine(products[k])
  {
    seq(|products|, k requires 0 <= k < |products| => ProductLine(products[k]))
  }

  /**
    The context for `products`: empty when there are none, otherwise the
    header, a newline, and the product lines joined with newlines.
   */
  function BuildContext(products: seq<Product>): (context: string)
    ensures context == "" <==> products == []
    ensures products != [] ==>
              |context| > |Header| && context[..|Header| + 1] == Header + "\n"
    ensures products != [] ==> context[|context| - 1] == ')'
  {
    if products == [] then ""
    else
      var lines := ProductLines(products);
      var last := lines[|lines| - 1];
      JoinEndsWithLast(lines);
      assert last[|last| - 1] == ')';
      Header + "\n" + JoinLines(lines)
  }

  /** No field printed into a product line contains a newline. */
  predicate SingleLine(p: Product) {
    '\n' !in p.name && '\n' !in p.description && '\n' !in p.price
  }

  /**
    Splitting a non-empty context at its newlines gives back the header
    followed by exactly one line per product, in order: there is no extra
    or trailing line.
   */
  lemma ContextLines(products: seq<Product>)
    requires products != []
    requires forall k :: 0 <= k < |products| ==> SingleLine(products[k])
    ensures SplitLines(BuildContext(products)) == [Header] + ProductLines(products)
  {
    var lines := ProductLines(products);
    forall k | 0 <= k < |lines|
      ensures '\n' !in lines[k]
    {
      var p := products[k];
      assert SingleLine(p);
      assert lines[k] == "- " + p.name + ": " + p.description + " ($" + p.price + ")";
    }
    assert ([Header] + lines)[1..] == lines;
    assert JoinLines([Header] + lines) == Header + "\n" + JoinLines(lines);
    assert NoNewlines([Header] + lines);
  }
}

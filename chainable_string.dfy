/** `ChainableString` in 08-strings/advanced.js: a wrapper around one string whose
    methods rewrite that string and hand back the same object, so that calls chain. */
module ChainableStrings {
  import JsString

  class ChainableString {
    var value: string

    constructor (value: string)
      ensures this.value == value
    {
      this.value := value;
    }

    method Trim() returns (self: ChainableString)
      modifies this
      ensures self == this && value == JsString.Trim(old(value))
    {
      value := JsString.Trim(value);
      self := this;
    }

    /** `charAt(0).toUpperCase() + slice(1).toLowerCase()`. */
    method Capitalize() returns (self: ChainableString)
      modifies this
      ensures self == this && value == JsString.CapitalizeFirst(old(value))
    {
      value := JsString.CapitalizeFirst(value);
      self := this;
    }

    /** `split('').reverse().join('')`: the characters in the opposite order. */
    method Reverse() returns (self: ChainableString)
      modifies this
      ensures self == this && value == JsString.Reverse(old(value))
    {
      value := JsString.Reverse(value);
      self := this;
    }

    /** `replace(/\s+/g, '')`. */
    method RemoveSpaces() returns (self: ChainableString)
      modifies this
      ensures self == this && value == JsString.RemoveWhitespace(old(value))
    {
      value := JsString.RemoveWhitespace(value);
      self := this;
    }

    method AddPrefix(prefix: string) returns (self: ChainableString)
      modifies this
      ensures self == this && value == prefix + old(value)
    {
      value := prefix + value;
      self := this;
    }

    method AddSuffix(suffix: string) returns (self: ChainableString)
      modifies this
      ensures self == this && value == old(value) + suffix
    {
      value := value + suffix;
      self := this;
    }

    method Get() returns (v: string)
      ensures v == value
    {
      v := value;
    }
  }

  /** A new wrapper hands back the string it was built with. */
  method NewThenGet(v: string) returns (r: string)
    ensures r == v
  {
    var c := new ChainableString(v);
    r := c.Get();
  }

  /** Two reversals in a row restore the value; after one removal of whitespace, a
      second changes nothing. */
  method ReverseTwiceRemoveTwice(v: string) returns (reversed: string, removed: string)
    ensures reversed == v
    ensures JsString.NoWhitespace(removed) && removed == JsString.RemoveWhitespace(v)
  {
    var c := new ChainableString(v);
    c := c.Reverse();
    c := c.Reverse();
    reversed := c.Get();
    JsString.ReverseReverse(v);
    var d := new ChainableString(v);
    d := d.RemoveSpaces();
    d := d.RemoveSpaces();
    removed := d.Get();
    JsString.RemoveWhitespaceIdempotent(v);
  }

  /** Without whitespace inside the words, dropping the space between them joins them. */
  lemma RemoveWhitespaceBetween(a: string, b: string)
    requires JsString.NoWhitespace(a) && JsString.NoWhitespace(b)
    ensures JsString.RemoveWhitespace(a + " " + b) == a + b
  {
    JsString.FilterConcat(a + " ", b, JsString.IsNotWhitespace);
    JsString.FilterConcat(a, " ", JsString.IsNotWhitespace);
    JsString.RemoveWhitespaceNone(a);
    JsString.RemoveWhitespaceNone(b);
  }

  /** Trimming, capitalising and removing whitespace from two padded words joins them
      into one capitalised word. */
  lemma TrimCapitalizeRemoveTwoWords(w: string, a: string, b: string)
    requires JsString.AllWhitespace(w) && a != [] && b != []
    requires JsString.NoWhitespace(a) && JsString.NoWhitespace(b)
    ensures JsString.RemoveWhitespace(JsString.CapitalizeFirst(JsString.Trim(w + (a + " " + b) + w)))
            == JsString.CapitalizeFirst(a) + JsString.LowerCase(b)
  {
    var text := a + " " + b;
    JsString.TrimStrips(w, text, w);
    JsString.CapitalizeFirstAcrossSpace(a, b);
    JsString.CaseKeepsNoWhitespace(a);
    JsString.CaseKeepsNoWhitespace(b);
    var cap, low := JsString.CapitalizeFirst(a), JsString.LowerCase(b);
    RemoveWhitespaceBetween(cap, low);
  }

  /** The chain at the end of the section: trim, capitalize, removeSpaces, then the
      prefix 'Welcome_' and the suffix '_2024'. */
  method Chain(text: string) returns (chainedResult: string)
    ensures chainedResult ==
            "Welcome_" + JsString.RemoveWhitespace(JsString.CapitalizeFirst(JsString.Trim(text))) + "_2024"
  {
    var c := new ChainableString(text);
    c := c.Trim();
    c := c.Capitalize();
    c := c.RemoveSpaces();
    c := c.AddPrefix("Welcome_");
    c := c.AddSuffix("_2024");
    chainedResult := c.Get();
  }

  lemma ChainHelloWorld()
    ensures JsString.RemoveWhitespace(JsString.CapitalizeFirst(JsString.Trim("  " + ("hello" + " " + "world") + "  ")))
            == JsString.CapitalizeFirst("hello") + JsString.LowerCase("world")
  {
    assert JsString.AllWhitespace("  ") && JsString.NoWhitespace("hello") && JsString.NoWhitespace("world");
    TrimCapitalizeRemoveTwoWords("  ", "hello", "world");
  }

  lemma AffixHelloWorld(joined: string)
    requires joined == JsString.CapitalizeFirst("hello") + JsString.LowerCase("world")
    ensures "Welcome_" + joined + "_2024" == "Welcome_Helloworld_2024"
  {
    assert JsString.CapitalizeFirst("hello") == "Hello";
    assert JsString.LowerCase("world") == "world";
  }

  /** The chain run on '  hello world  '. */
  method ChainExample() returns (chainedResult: string)
    ensures chainedResult == "Welcome_Helloworld_2024"
  {
    chainedResult := Chain("  " + ("hello" + " " + "world") + "  ");
    ChainHelloWorld();
    AffixHelloWorld(JsString.RemoveWhitespace(JsString.CapitalizeFirst(JsString.Trim("  " + ("hello" + " " + "world") + "  "))));
  }
}

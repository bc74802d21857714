/** The static helpers of `StringParser` in 08-strings/advanced.js: splitting names and
    e-mail addresses, capitalisation strategies, clamped slicing and username
    clean-up. */
module StringParser {
  import opened Wrappers
  import opened JsString

  // ---------------------------------------------------------------------------
  // parseFullName

  /** The object literal `parseFullName` returns; an initial is `None` where the
      indexing yields `undefined`. */
  datatype NameParts = NameParts(
    firstName: string,
    lastName: string,
    firstInitial: Option<char>,
    lastInitial: Option<char>)

  /** Splits at the first space. With no space, `indexOf` yields -1, so `firstName` is
      `slice(0, -1)` (everything but the last character) and `lastName` is `slice(0)`
      (the whole name). */
  function ParseFullName(fullName: string): (p: NameParts)
    ensures ' ' in fullName ==> p.firstName + " " + p.lastName == fullName && ' ' !in p.firstName
    ensures ' ' !in fullName ==> p.lastName == fullName
    ensures ' ' !in fullName && fullName != [] ==> p.firstName == fullName[..|fullName| - 1]
    ensures fullName == [] ==> p.firstName == []
    ensures p.firstInitial == if fullName == [] then None else Some(fullName[0])
    ensures p.lastInitial == if p.lastName == [] then None else Some(p.lastName[0])
  {
    var (firstName, lastName) := AroundFirst(fullName, ' ');
    var spaceIndex := IndexOf(fullName, ' ');
    assert lastName == fullName[spaceIndex + 1..];
    assert lastName != [] ==> lastName[0] == fullName[spaceIndex + 1];
    NameParts(firstName, lastName, At(fullName, 0), At(fullName, spaceIndex + 1))
  }

  /** The parts of a name whose first space is at position `k`. */
  lemma ParseFullNameAt(fullName: string, k: nat)
    requires k < |fullName| && fullName[k] == ' ' && ' ' !in fullName[..k]
    ensures ParseFullName(fullName) ==
            NameParts(fullName[..k], fullName[k + 1..], Some(fullName[0]), At(fullName, k + 1))
  {
    IndexOfIs(fullName, ' ', k);
  }

  /** A one-word name loses its last letter: "Cher" gives first name "Che". */
  lemma SingleWordNameLosesLastLetter()
    ensures ParseFullName("Cher").firstName == "Che"
    ensures ParseFullName("Cher").lastName == "Cher"
  {
    assert ' ' !in "Cher";
  }

  /** `parseFullName` with the no-space case handled: a one-word name is all first name,
      with an empty last name. */
  function ParseFullNameFixed(fullName: string): (p: NameParts)
    ensures ' ' in fullName ==> p.firstName + " " + p.lastName == fullName && ' ' !in p.firstName
    ensures ' ' !in fullName ==> p.firstName == fullName && p.lastName == []
    ensures p.firstInitial == if fullName == [] then None else Some(fullName[0])
    ensures p.lastInitial == if p.lastName == [] then None else Some(p.lastName[0])
  {
    if ' ' in fullName then ParseFullName(fullName)
    else NameParts(fullName, [], At(fullName, 0), None)
  }

  // ---------------------------------------------------------------------------
  // parseEmail

  datatype EmailParts = EmailParts(username: string, domain: string, topLevelDomain: string)

  /** The top-level domain is what follows the last '.' of the whole address; the rest
      splits at the first '@'. */
  function ParseEmail(email: string): (p: EmailParts)
    ensures '.' !in p.topLevelDomain
    ensures |p.topLevelDomain| <= |email| && email[|email| - |p.topLevelDomain|..] == p.topLevelDomain
    ensures '.' in email ==> |p.topLevelDomain| < |email| && email[|email| - |p.topLevelDomain| - 1] == '.'
    ensures '.' !in email ==> p.topLevelDomain == email
    ensures '@' in email ==> p.username + "@" + p.domain == email && '@' !in p.username
    ensures '@' !in email ==> p.domain == email
    ensures '@' !in email && email != [] ==> p.username == email[..|email| - 1]
    ensures email == [] ==> p.username == []
  {
    var parts := AroundFirst(email, '@');
    EmailParts(parts.0, parts.1, AfterLast(email, '.'))
  }

  /** The parts of an address whose first '@' is at `at` and whose last '.' is at `dot`. */
  lemma ParseEmailAt(email: string, at: nat, dot: nat)
    requires at < |email| && email[at] == '@' && '@' !in email[..at]
    requires dot < |email| && email[dot] == '.' && '.' !in email[dot + 1..]
    ensures ParseEmail(email) == EmailParts(email[..at], email[at + 1..], email[dot + 1..])
  {
    IndexOfIs(email, '@', at);
    assert AroundFirst(email, '@') == (email[..at], email[at + 1..]);
    LastIndexOfIs(email, '.', dot);
    assert AfterLast(email, '.') == Slice(email, dot + 1, None) == email[dot + 1..];
  }

  /** A dot in the user name and none in the domain make the "top-level domain" run
      across the '@': "a.b@host" gives "b@host", which is not part of the domain. */
  lemma DottedUserTopLevelDomain()
    ensures ParseEmail("a.b@host") == EmailParts("a.b", "host", "b@host")
  {
    var e := "a.b@host";
    assert e[..3] == "a.b" && e[4..] == "host" && e[2..] == "b@host";
    ParseEmailAt(e, 3, 1);
  }

  /** `parseEmail` with the top-level domain taken after the last '.' of the domain. */
  function ParseEmailFixed(email: string): (p: EmailParts)
    ensures '@' in email ==> p.username + "@" + p.domain == email && '@' !in p.username
    ensures '.' !in p.topLevelDomain
    ensures |p.topLevelDomain| <= |p.domain|
    ensures p.domain[|p.domain| - |p.topLevelDomain|..] == p.topLevelDomain
    ensures '.' in p.domain ==>
              |p.topLevelDomain| < |p.domain| && p.domain[|p.domain| - |p.topLevelDomain| - 1] == '.'
  {
    var parts := AroundFirst(email, '@');
    EmailParts(parts.0, parts.1, AfterLast(parts.1, '.'))
  }

  /** With the fix, an address whose domain has no '.' has the whole domain as its
      top-level domain. */
  lemma ParseEmailFixedNoDot(email: string, at: nat)
    requires at < |email| && email[at] == '@' && '@' !in email[..at]
    requires '.' !in email[at + 1..]
    ensures ParseEmailFixed(email) == EmailParts(email[..at], email[at + 1..], email[at + 1..])
  {
    IndexOfIs(email, '@', at);
    assert AroundFirst(email, '@') == (email[..at], email[at + 1..]);
  }

  /** The address of the finding, under the fix: the top-level domain stays inside the
      domain. */
  lemma DottedUserTopLevelDomainFixed()
    ensures ParseEmailFixed("a.b@host") == EmailParts("a.b", "host", "host")
  {
    var e := "a.b@host";
    assert e[..3] == "a.b" && e[4..] == "host";
    ParseEmailFixedNoDot(e, 3);
  }

  // ---------------------------------------------------------------------------
  // capitalize

  /** The four own entries of the `strategies` object. */
  datatype Strategy = First | All | Words | Toggle

  /** The members `strategies` inherits from `Object.prototype`, grouped by what calling
      one with no arguments and `strategies` as `this` gives. */
  datatype Inherited =
    | ObjectTag    // toString, toLocaleString: the string "[object Object]"
    | AnObject     // valueOf (`strategies` itself), constructor (a new empty object)
    | Falsy        // hasOwnProperty, isPrototypeOf, propertyIsEnumerable: false;
                   // __lookupGetter__, __lookupSetter__: undefined
    | NotCallable  // __proto__ (an object, not a function); __defineGetter__ and
                   // __defineSetter__ (throw without a function argument)

  /** What `capitalize` hands back: a string, an object, or a thrown TypeError. */
  datatype Returned = Value(s: string) | ObjectValue | TypeError

  /** `strategies[name]`: the strategy stored under `name`, or `None` (undefined). */
  function LookupStrategy(name: string): (st: Option<Strategy>)
    ensures st == Some(First) <==> name == "first"
    ensures st == Some(All) <==> name == "all"
    ensures st == Some(Words) <==> name == "words"
    ensures st == Some(Toggle) <==> name == "toggle"
  {
    if name == "first" then Some(First)
    else if name == "all" then Some(All)
    else if name == "words" then Some(Words)
    else if name == "toggle" then Some(Toggle)
    else None
  }

  /** `strategies[name]` for a name with no own entry: the inherited member, if any. */
  function LookupInherited(name: string): (m: Option<Inherited>)
    ensures m.Some? ==> LookupStrategy(name).None?
    ensures m == Some(ObjectTag) <==> name == "toString" || name == "toLocaleString"
    ensures m == Some(AnObject) <==> name == "valueOf" || name == "constructor"
    ensures m == Some(Falsy) <==>
              || name == "hasOwnProperty" || name == "isPrototypeOf" || name == "propertyIsEnumerable"
              || name == "__lookupGetter__" || name == "__lookupSetter__"
    ensures m == Some(NotCallable) <==>
              name == "__proto__" || name == "__defineGetter__" || name == "__defineSetter__"
  {
    if name == "toString" || name == "toLocaleString" then Some(ObjectTag)
    else if name == "valueOf" || name == "constructor" then Some(AnObject)
    else if || name == "hasOwnProperty" || name == "isPrototypeOf" || name == "propertyIsEnumerable"
            || name == "__lookupGetter__" || name == "__lookupSetter__" then Some(Falsy)
    else if name == "__proto__" || name == "__defineGetter__" || name == "__defineSetter__" then
      Some(NotCallable)
    else None
  }

  /** Each word with its first character upper-cased and the rest lower-cased, in the
      same order. */
  function CapitalizeEach(words: seq<string>): (r: seq<string>)
    ensures |r| == |words|
    ensures forall i :: 0 <= i < |words| ==> r[i] == CapitalizeFirst(words[i])
  {
    if words == [] then [] else [CapitalizeFirst(words[0])] + CapitalizeEach(words[1..])
  }

  /** The 'words' strategy: every space-separated piece capitalised, joined back. Text
      without a space is one word. */
  function CapitalizeWords(text: string): (r: string)
    ensures ' ' !in text ==> r == CapitalizeFirst(text)
  {
    var words := Split(text, ' ');
    assert ' ' !in text ==> words == [text];
    Join(CapitalizeEach(words), ' ')
  }

  /** The 'toggle' strategy: even positions upper case, odd positions lower case. Only
      the case of letters changes: upper- and lower-casing the result gives the same as
      upper- and lower-casing the text. */
  function ToggleCase(text: string): (r: string)
    ensures |r| == |text|
    ensures forall i :: 0 <= i < |text| ==> r[i] == if i % 2 == 0 then ToUpper(text[i]) else ToLower(text[i])
    ensures UpperCase(r) == UpperCase(text) && LowerCase(r) == LowerCase(text)
  {
    seq(|text|, i requires 0 <= i < |text| => if i % 2 == 0 then ToUpper(text[i]) else ToLower(text[i]))
  }

  /** Calls the strategy. Every strategy keeps the length and changes at most the case
      of each character. */
  function RunStrategy(st: Strategy, text: string): (r: string)
    ensures |r| == |text|
    ensures forall i :: 0 <= i < |text| ==> r[i] == ToUpper(text[i]) || r[i] == ToLower(text[i])
  {
    match st
    case First => CapitalizeFirst(text)
    case All => UpperCase(text)
    case Words =>
      CapitalizeWordsAt(text);
      CapitalizeWords(text)
    case Toggle => ToggleCase(text)
  }

  /** The name `capitalize` looks up: the argument, or 'first' when it is omitted. */
  function StrategyName(strategy: Option<string>): string {
    if strategy.Some? then strategy.value else "first"
  }

  /** `capitalize(text, strategy = 'first')`. `None` is an omitted or undefined strategy.
      The optional call keeps `strategies` as `this`, so an inherited member runs too. A
      name with no member gives undefined, and an empty string, `false` and undefined
      are falsy: then the `|| text` fallback returns `text`. */
  function Capitalize(text: string, strategy: Option<string>): (r: Returned)
    ensures var name := StrategyName(strategy);
            LookupStrategy(name).Some? ==> r.Value? && |r.s| == |text|
    ensures var name := StrategyName(strategy);
            LookupStrategy(name).None? && (LookupInherited(name).None? || LookupInherited(name) == Some(Falsy))
            ==> r == Value(text)
    ensures LookupInherited(StrategyName(strategy)) == Some(ObjectTag) ==> r == Value("[object Object]")
    ensures r.ObjectValue? <==> LookupInherited(StrategyName(strategy)) == Some(AnObject)
    ensures r.TypeError? <==> LookupInherited(StrategyName(strategy)) == Some(NotCallable)
  {
    var name := StrategyName(strategy);
    match LookupStrategy(name)
    case Some(st) =>
      var out := RunStrategy(st, text);
      Value(if out != [] then out else text)
    case None =>
      match LookupInherited(name)
      case None => Value(text)
      case Some(ObjectTag) => Value("[object Object]")
      case Some(AnObject) => ObjectValue
      case Some(Falsy) => Value(text)
      case Some(NotCallable) => TypeError
  }

  /** The case of position `i` under the 'words' strategy: upper case at the start of the
      text and right after a space, lower case elsewhere. */
  function WordCase(text: string, i: nat): (c: char)
    requires i < |text|
    ensures c == ToUpper(text[i]) || c == ToLower(text[i])
    ensures i == 0 || text[i - 1] == ' ' ==> c == ToUpper(text[i])
  {
    if i == 0 || text[i - 1] == ' ' then ToUpper(text[i]) else ToLower(text[i])
  }

  /** A word, a space and text whose 'words' casing is known give the 'words' casing of
      the whole. */
  lemma WordCaseAcross(text: string, k: nat, r: string)
    requires k < |text| && text[k] == ' ' && ' ' !in text[..k]
    requires |r| == |text| && r[..k] == CapitalizeFirst(text[..k]) && r[k] == ' '
    requires forall i :: k < i < |text| ==> r[i] == WordCase(text[k + 1..], i - k - 1)
    ensures forall i :: 0 <= i < |text| ==> r[i] == WordCase(text, i)
  {
    forall i | 0 <= i < |text| ensures r[i] == WordCase(text, i) {
      if i < k {
        assert r[i] == r[..k][i] && 0 < i ==> text[i - 1] == text[..k][i - 1];
      } else if k < i {
        var j := i - k - 1;
        assert text[k + 1..][j] == text[i];
        assert 0 < j ==> text[k + 1..][j - 1] == text[i - 1];
      }
    }
  }

  /** The 'words' strategy on text with a space: the first word capitalised, the space,
      and the rest under the same strategy. */
  lemma CapitalizeWordsUnfold(text: string, k: nat)
    requires k == IndexOf(text, ' ')
    ensures CapitalizeWords(text) == CapitalizeFirst(text[..k]) + " " + CapitalizeWords(text[k + 1..])
  {
    var first, words := text[..k], Split(text[k + 1..], ' ');
    assert Split(text, ' ') == [first] + words;
    assert ([first] + words)[1..] == words;
    assert CapitalizeEach([first] + words) == [CapitalizeFirst(first)] + CapitalizeEach(words);
    JoinCons(CapitalizeFirst(first), CapitalizeEach(words), ' ');
  }

  /** Without a space, the 'words' casing is the 'first' casing. */
  lemma WordCaseOneWord(text: string)
    requires ' ' !in text
    ensures |CapitalizeWords(text)| == |text|
    ensures forall i :: 0 <= i < |text| ==> CapitalizeWords(text)[i] == WordCase(text, i)
  {
    var r := CapitalizeWords(text);
    assert r == CapitalizeFirst(text);
    forall j | 0 <= j < |text| ensures text[j] != ' ' {
      assert text[j] in text;
    }
  }

  /** The 'words' strategy keeps the length and sets each character's case from the
      character before it. */
  lemma {:induction false} CapitalizeWordsAt(text: string)
    ensures |CapitalizeWords(text)| == |text|
    ensures forall i :: 0 <= i < |text| ==> CapitalizeWords(text)[i] == WordCase(text, i)
    decreases |text|
  {
    var k := IndexOf(text, ' ');
    if k < 0 {
      WordCaseOneWord(text);
    } else {
      var rest := text[k + 1..];
      CapitalizeWordsAt(rest);
      var tail := CapitalizeWords(rest);
      var r := CapitalizeFirst(text[..k]) + " " + tail;
      assert r[..k] == CapitalizeFirst(text[..k]) && r[k] == ' ';
      forall i | k < i < |text| ensures r[i] == WordCase(rest, i - k - 1) {
        assert r[i] == tail[i - k - 1];
      }
      WordCaseAcross(text, k, r);
      CapitalizeWordsUnfold(text, k);
    }
  }

  /** The default strategy upper-cases the first character and lower-cases the rest. */
  lemma CapitalizeDefault(text: string)
    ensures Capitalize(text, None) == Capitalize(text, Some("first")) == Value(CapitalizeFirst(text))
    ensures |Capitalize(text, None).s| == |text|
    ensures forall i :: 0 <= i < |text| ==>
              Capitalize(text, None).s[i] == if i == 0 then ToUpper(text[0]) else ToLower(text[i])
  {
  }

  /** For the four named strategies the `|| text` fallback never changes the outcome:
      a strategy yields the empty string only for the empty text. */
  lemma {:induction false} CapitalizeNamed(text: string, name: string)
    requires LookupStrategy(name).Some?
    ensures Capitalize(text, Some(name)) == Value(RunStrategy(LookupStrategy(name).value, text))
  {
  }

  lemma CapitalizeWordsStrategy(text: string)
    ensures Capitalize(text, Some("words")).Value? && |Capitalize(text, Some("words")).s| == |text|
    ensures forall i :: 0 <= i < |text| ==> Capitalize(text, Some("words")).s[i] == WordCase(text, i)
  {
    CapitalizeNamed(text, "words");
    CapitalizeWordsAt(text);
  }

  /** Two words separated by one space: each is capitalised on its own. */
  lemma CapitalizeTwoWords(a: string, b: string)
    requires ' ' !in a && ' ' !in b
    ensures Capitalize(a + " " + b, Some("words")) == Value(CapitalizeFirst(a) + " " + CapitalizeFirst(b))
  {
    var t := a + " " + b;
    IndexOfIs(t, ' ', |a|);
    assert t[..|a|] == a && t[|a| + 1..] == b;
    CapitalizeWordsUnfold(t, |a|);
    CapitalizeNamed(t, "words");
  }

  lemma CapitalizeOtherStrategies(text: string)
    ensures Capitalize(text, Some("all")) == Value(UpperCase(text))
    ensures Capitalize(text, Some("toggle")).Value? && |Capitalize(text, Some("toggle")).s| == |text|
    ensures forall i :: 0 <= i < |text| ==>
              Capitalize(text, Some("toggle")).s[i] == if i % 2 == 0 then ToUpper(text[i]) else ToLower(text[i])
  {
    CapitalizeNamed(text, "all");
    CapitalizeNamed(text, "toggle");
  }

  // ---------------------------------------------------------------------------
  // safeSlice

  /** `safeSlice(str, start, end = str.length)`: both indices normalised (a negative one
      counts from the end and stops at 0, a positive one stops at the length) before the
      slice is taken. */
  function SafeSlice(str: string, start: int, end: Option<int>): (r: string)
    ensures |r| <= |str|
    ensures r == Slice(str, start, end)
  {
    var e := if end.Some? then end.value else |str|;
    var from := if start < 0 then (if |str| + start > 0 then |str| + start else 0)
                else (if start < |str| then start else |str|);
    var to := if e < 0 then (if |str| + e > 0 then |str| + e else 0)
              else (if e < |str| then e else |str|);
    assert from == RelativeIndex(|str|, from) == RelativeIndex(|str|, start);
    assert to == RelativeIndex(|str|, to) == RelativeIndex(|str|, e);
    Slice(str, from, Some(to))
  }

  /** The result is always the contiguous run of `str` between the clamped indices. */
  lemma SafeSliceContiguous(str: string, start: int, end: Option<int>)
    ensures var from := RelativeIndex(|str|, start);
            from + |SafeSlice(str, start, end)| <= |str| &&
            SafeSlice(str, start, end) == str[from..from + |SafeSlice(str, start, end)|]
  {
  }

  // ---------------------------------------------------------------------------
  // sanitizeUsername, formatUsername

  predicate IsUsernameChar(c: char) {
    'a' <= c <= 'z' || '0' <= c <= '9' || c == '_'
  }

  /** `sanitizeUsername`: the trimmed name, lower-cased, with every character outside
      `[a-z0-9_]` removed, cut to its first 20 characters. */
  function SanitizeUsername(username: string): (r: string)
    ensures |r| <= 20
    ensures forall i :: 0 <= i < |r| ==> IsUsernameChar(r[i])
    ensures var kept := Filter(LowerCase(Trim(username)), IsUsernameChar);
            r == kept[..if |kept| < 20 then |kept| else 20]
  {
    Slice(Filter(LowerCase(Trim(username)), IsUsernameChar), 0, Some(20))
  }

  /** A name of at most 20 characters from `[a-z0-9_]` is left as it is. */
  lemma SanitizeUsernameKeeps(name: string)
    requires |name| <= 20 && forall i :: 0 <= i < |name| ==> IsUsernameChar(name[i])
    ensures SanitizeUsername(name) == name
  {
    assert name == [] || (!IsWhitespace(name[0]) && !IsWhitespace(name[|name| - 1])) by {
      if name != [] { assert IsUsernameChar(name[0]) && IsUsernameChar(name[|name| - 1]); }
    }
    TrimNoEnds(name);
    assert LowerCase(name) == name by {
      forall i | 0 <= i < |name| ensures LowerCase(name)[i] == name[i] {
        assert IsUsernameChar(name[i]);
      }
    }
    FilterKeepsAll(name, IsUsernameChar);
  }

  /** A sanitised username sanitises to itself. */
  lemma SanitizeUsernameIdempotent(username: string)
    ensures SanitizeUsername(SanitizeUsername(username)) == SanitizeUsername(username)
  {
    SanitizeUsernameKeeps(SanitizeUsername(username));
  }

  /** `formatUsername`: the trimmed name with its first character upper-cased and the
      rest lower-cased. */
  function FormatUsername(username: string): (r: string)
    ensures |r| == |Trim(username)|
    ensures Capitalize(Trim(username), None) == Value(r)
  {
    var trimmed := Trim(username);
    CapitalizeFirst(trimmed)
  }

  // ---------------------------------------------------------------------------
  // The calls at the end of the file, with the results its comments and output show

  lemma ParseFullNameExample()
    ensures ParseFullName("Shonjoy Das") == NameParts("Shonjoy", "Das", Some('S'), Some('D'))
  {
    var n := "Shonjoy Das";
    assert n[..7] == "Shonjoy" && n[8..] == "Das";
    ParseFullNameAt(n, 7);
  }

  lemma ParseEmailExample()
    ensures ParseEmail("shonjoy@gmail.com") == EmailParts("shonjoy", "gmail.com", "com")
  {
    var e := "shonjoy@gmail.com";
    var u, d, t := "shonjoy", "gmail.com", "com";
    assert e[..7] == u && e[8..] == d && e[14..] == t by {
      assert e == u + "@" + d;
    }
    ParseEmailAt(e, 7, 13);
  }

  lemma CapitalizeFirstExample()
    ensures Capitalize("hello world", None) == Value("Hello world")
  {
    var t := "hello world";
    assert CapitalizeFirst(t) == "Hello world";
    CapitalizeDefault(t);
  }

  lemma CapitalizeWordsExample()
    ensures Capitalize("hello" + " " + "world", Some("words")) == Value("Hello World")
  {
    var a, b := "hello", "world";
    assert CapitalizeFirst(a) == "Hello" && CapitalizeFirst(b) == "World";
    assert CapitalizeFirst(a) + " " + CapitalizeFirst(b) == "Hello World";
    CapitalizeTwoWords(a, b);
  }

  lemma CapitalizeToggleExample()
    ensures Capitalize("hello world", Some("toggle")) == Value("HeLlO WoRlD")
  {
    var t := "hello world";
    assert ToggleCase(t) == "HeLlO WoRlD";
    CapitalizeNamed(t, "toggle");
  }

  /** Names inherited from `Object.prototype` are called too: 'toString' gives
      "[object Object]", 'valueOf' an object, 'hasOwnProperty' gives false and so the
      text, and '__proto__' is not a function, so the call throws. */
  lemma CapitalizeInheritedExample()
    ensures Capitalize("hello", Some("toString")) == Value("[object Object]")
    ensures Capitalize("hello", Some("valueOf")) == ObjectValue
    ensures Capitalize("hello", Some("hasOwnProperty")) == Value("hello")
    ensures Capitalize("hello", Some("__proto__")) == TypeError
  {
  }

  lemma SafeSliceExample()
    ensures SafeSlice("Hello", -2, Some(-1)) == "l"
  {
  }

  /** Surrounding whitespace is dropped and the rest only lower-cased when it is short and
      made of letters, digits and underscores. */
  lemma SanitizeUsernamePadded(w: string, n: string)
    requires AllWhitespace(w) && n != [] && !IsWhitespace(n[0]) && !IsWhitespace(n[|n| - 1])
    requires |n| <= 20 && forall i :: 0 <= i < |n| ==> IsUsernameChar(LowerCase(n)[i])
    ensures SanitizeUsername(w + n + w) == LowerCase(n)
  {
    TrimStrips(w, n, w);
    FilterKeepsAll(LowerCase(n), IsUsernameChar);
  }

  lemma SanitizeUsernameExample()
    ensures SanitizeUsername("  " + "ShOnJoY" + "  ") == "shonjoy"
  {
    var n := "ShOnJoY";
    assert LowerCase(n) == "shonjoy";
    SanitizeUsernamePadded("  ", n);
  }

  /** Surrounding whitespace is dropped and the rest capitalised. */
  lemma FormatUsernamePadded(w: string, n: string)
    requires AllWhitespace(w) && n != [] && !IsWhitespace(n[0]) && !IsWhitespace(n[|n| - 1])
    ensures FormatUsername(w + n + w) == CapitalizeFirst(n)
  {
    TrimStrips(w, n, w);
    CapitalizeDefault(n);
  }

  lemma FormatUsernameExample()
    ensures FormatUsername("  " + "ShOnJoY" + "  ") == "Shonjoy"
  {
    var n := "ShOnJoY";
    assert CapitalizeFirst(n) == "Shonjoy";
    FormatUsernamePadded("  ", n);
  }
}

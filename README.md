# Strings, null/undefined and copying: a Dafny model

This project models the hand-written logic of three lessons in the JavaScript
repository shonjoydev/programming (`03-types-values-and-variables`):

- `08-strings/advanced.js`:
  - `StringParser`: splits names and e-mail addresses, capitalises text with four
    strategies, slices with clamped indices, sanitises and formats usernames.
  - `ChainableString`: a wrapper whose methods rewrite one `value` field and return the
    object itself, so calls chain.
- `11-null-and-undefined/script.js`:
  - `UserDatabase`: a `Map`-backed store where `getUser` tells three outcomes apart:
    never written (`undefined`), deleted (a `null` tombstone) and present.
  - `setConfig`: a default parameter that replaces `undefined` but not `null`.
- `13-immutable-vs-mutable/script.js`:
  - `equalArrays` and `equalObjects`, with their reference fast paths.
  - `addItemBad` (pushes into its argument) and `addItemGood` (returns a new array).
  - The manual copy loop.
  - `ShoppingCart`, which either shares or copies the caller's array.

Layout, one module per file:

- `wrappers.dfy` (`Wrappers`): `Option`, where `None` stands for `undefined`.
- `js_string.dfy` (`JsString`): the String built-ins the utilities are written with:
  - `trim`, ASCII `toUpperCase`/`toLowerCase`, `slice`, `indexOf`, `lastIndexOf`;
  - `split`/`join` on one character, `split('').reverse().join('')`;
  - `replace` with a global character-class pattern.
  Each has a contract of its own.
- `string_parser.dfy` (`StringParser`): the static methods, as pure functions.
- `chainable_string.dfy` (`ChainableStrings`): the class, with one `string` field.
- `null_and_undefined.dfy` (`NullAndUndefined`): the store and `setConfig`.
- `immutable_vs_mutable.dfy` (`ImmutableVsMutable`):
  - JavaScript arrays and plain objects as heap classes;
  - the comparisons as read-only loops;
  - the copy, push and cart operations as methods whose frames show what is shared.

Modelling choices:

- A `char` is a Unicode scalar value, while JavaScript strings count UTF-16 code units.
  The two agree on text inside the Basic Multilingual Plane (see "## Left out").
- Whitespace (`trim`, `\s`) is the ECMAScript WhiteSpace and LineTerminator set.
- Case mapping covers ASCII letters only.
- Integers are unbounded and array elements are compared with Dafny equality. For
  class types, Dafny equality is reference identity, as `===` is.
- `safeSlice` clamps both indices exactly as `slice` itself normalises them, so
  `SafeSlice` is proved equal to `Slice` for every input. The extra clamping has no effect.
- `equalObjects` tests `a === b` first, so `equalObjects(null, null)` and
  `equalObjects(1, 1)` are true. Only distinct values that are not both non-null
  objects are rejected by the `typeof` and `null` tests.

## Model

| member | source | states |
|---|---|---|
| `JsString.Trim` | 03-types-values-and-variables/08-strings/advanced.js:200 | the result is a contiguous slice of the input with only whitespace before and after it, and neither starts nor ends with whitespace |
| `JsString.TrimStrips` | 03-types-values-and-variables/08-strings/advanced.js:210 | whitespace around text with non-whitespace ends is exactly what `trim` removes |
| `JsString.TrimIdempotent` | 03-types-values-and-variables/08-strings/advanced.js:282 | trimming twice equals trimming once |
| `JsString.TrimNoEnds` | 03-types-values-and-variables/08-strings/advanced.js:200 | text without whitespace at either end is left as it is |
| `JsString.CaseKeepsNoWhitespace` | 03-types-values-and-variables/08-strings/advanced.js:160 | upper-casing, lower-casing or capitalising never introduces whitespace |
| `JsString.UpperCase` | 03-types-values-and-variables/08-strings/advanced.js:161 | same length; every position is the upper-case form of the input's character, and no ASCII lower-case letter is left |
| `JsString.LowerCase` | 03-types-values-and-variables/08-strings/advanced.js:160 | same length; every position is the lower-case form of the input's character, and no ASCII capital is left |
| `JsString.LowerCaseConcat` | 03-types-values-and-variables/08-strings/advanced.js:166 | lower-casing distributes over concatenation |
| `JsString.CapitalizeFirst` | 03-types-values-and-variables/08-strings/advanced.js:160 | same length; position 0 is upper-cased and every other position lower-cased |
| `JsString.CapitalizeFirstAcrossSpace` | 03-types-values-and-variables/08-strings/advanced.js:288 | capitalising "a b" capitalises the first word and lower-cases all that follows the space |
| `JsString.At` | 03-types-values-and-variables/08-strings/advanced.js:138-139 | `s[i]` is a character exactly for an index inside the string, otherwise undefined |
| `JsString.RelativeIndex` | 03-types-values-and-variables/08-strings/advanced.js:187-190 | a normalised slice index always lies in `[0, length]` |
| `JsString.Slice` | 03-types-values-and-variables/08-strings/advanced.js:192 | the result is the run of the string from the normalised start, as long as the normalised end allows and empty when the ends cross; with no end it runs to the end |
| `JsString.IndexOf` | 03-types-values-and-variables/08-strings/advanced.js:134 | -1 exactly when the character is absent, otherwise the position of its first occurrence |
| `JsString.IndexOfIs` | 03-types-values-and-variables/08-strings/advanced.js:147 | a position holding the character with none before it is what `indexOf` returns |
| `JsString.LastIndexOf` | 03-types-values-and-variables/08-strings/advanced.js:151 | -1 exactly when the character is absent, otherwise the position of its last occurrence |
| `JsString.LastIndexOfIs` | 03-types-values-and-variables/08-strings/advanced.js:151 | a position holding the character with none after it is what `lastIndexOf` returns |
| `JsString.AroundFirst` | 03-types-values-and-variables/08-strings/advanced.js:136-137 | with the character present, the two parts put back around it give the input and the first part lacks it; without it, the second part is the input and the first loses the last character |
| `JsString.AroundFirstSlices` | 03-types-values-and-variables/08-strings/advanced.js:136-137 | the two parts are the `slice` up to the first occurrence and the `slice` after it, with `indexOf`'s -1 when the character is missing |
| `JsString.AfterLast` | 03-types-values-and-variables/08-strings/advanced.js:151 | the result is a suffix free of the character, preceded by it when the character occurs, and the whole input otherwise |
| `JsString.Split` | 03-types-values-and-variables/08-strings/advanced.js:164 | at least one piece, and no piece contains the separator |
| `JsString.JoinSplit` | 03-types-values-and-variables/08-strings/advanced.js:164-168 | joining the pieces of a split with the same separator restores the text |
| `JsString.Join` | 03-types-values-and-variables/08-strings/advanced.js:168 | no pieces join to the empty string and one piece to itself; `JoinCons` places the separators and `SplitJoin` is the round trip |
| `JsString.SplitJoin` | 03-types-values-and-variables/08-strings/advanced.js:164-168 | pieces that do not contain the separator are exactly what splitting their join gives back |
| `JsString.JoinCons` | 03-types-values-and-variables/08-strings/advanced.js:168 | joining a non-empty tail after a first piece puts one separator between them |
| `JsString.Reverse` | 03-types-values-and-variables/08-strings/advanced.js:293 | same length, and position `i` holds the character at `length - 1 - i` |
| `JsString.ReverseReverse` | 03-types-values-and-variables/08-strings/advanced.js:292-295 | reversing twice restores the string |
| `JsString.Filter` | 03-types-values-and-variables/08-strings/advanced.js:202 | no longer than the input, every character kept is accepted, and each accepted character occurs as often as in the input |
| `JsString.FilterKeepsAll` | 03-types-values-and-variables/08-strings/advanced.js:202 | a string whose characters are all accepted is unchanged |
| `JsString.FilterConcat` | 03-types-values-and-variables/08-strings/advanced.js:298 | filtering a concatenation filters each part |
| `JsString.RemoveWhitespace` | 03-types-values-and-variables/08-strings/advanced.js:298 | no whitespace is left, and every other character occurs as often as before |
| `JsString.RemoveWhitespaceNone` | 03-types-values-and-variables/08-strings/advanced.js:298 | text without whitespace is unchanged |
| `JsString.RemoveWhitespaceIdempotent` | 03-types-values-and-variables/08-strings/advanced.js:297-300 | removing whitespace twice equals removing it once |
| `StringParser.ParseFullName` | 03-types-values-and-variables/08-strings/advanced.js:133-141 | with a space, first name + " " + last name is the full name and the first name has no space; without one, the last name is the whole name and the first name drops the last letter (and is empty for the empty name); the initials are the first characters, or undefined |
| `StringParser.ParseFullNameAt` | 03-types-values-and-variables/08-strings/advanced.js:134-140 | the parts of a name whose first space is at a given position |
| `StringParser.SingleWordNameLosesLastLetter` | 03-types-values-and-variables/08-strings/advanced.js:136 | "Cher" parses to first name "Che" and last name "Cher" |
| `StringParser.ParseFullNameFixed` | 03-types-values-and-variables/08-strings/advanced.js:133-141 | the corrected parse: the same round trip with a space; without one, the name is all first name and the last name is empty |
| `StringParser.ParseEmail` | 03-types-values-and-variables/08-strings/advanced.js:146-153 | with an '@', user + "@" + domain is the address and the user has no '@'; without one, the domain is the whole address and the user drops the last character (and is empty for the empty address); the top-level domain is a '.'-free suffix of the address, preceded by a '.' when the address has one |
| `StringParser.ParseEmailAt` | 03-types-values-and-variables/08-strings/advanced.js:147-151 | the parts of an address with its first '@' and its last '.' at given positions |
| `StringParser.DottedUserTopLevelDomain` | 03-types-values-and-variables/08-strings/advanced.js:151 | "a.b@host" yields the top-level domain "b@host" |
| `StringParser.ParseEmailFixed` | 03-types-values-and-variables/08-strings/advanced.js:146-153 | the corrected parse: the same user/domain round trip, and the top-level domain is a '.'-free suffix of the domain, preceded by '.' when the domain has one |
| `StringParser.ParseEmailFixedNoDot` | 03-types-values-and-variables/08-strings/advanced.js:150-151 | under the fix, a domain without '.' is its own top-level domain |
| `StringParser.DottedUserTopLevelDomainFixed` | 03-types-values-and-variables/08-strings/advanced.js:151 | under the fix, "a.b@host" has top-level domain "host" |
| `StringParser.LookupStrategy` | 03-types-values-and-variables/08-strings/advanced.js:159-176 | each of 'first', 'all', 'words', 'toggle' selects its strategy, and only that name does |
| `StringParser.LookupInherited` | 03-types-values-and-variables/08-strings/advanced.js:159-178 | a name that is not an own strategy may be one of the twelve members inherited from `Object.prototype`, each placed in one of four groups by what calling it gives, and only those names are |
| `StringParser.CapitalizeEach` | 03-types-values-and-variables/08-strings/advanced.js:165-167 | as many words as given, word `i` capitalised on its own |
| `StringParser.CapitalizeWords` | 03-types-values-and-variables/08-strings/advanced.js:162-168 | text without a space is capitalised as one word |
| `StringParser.ToggleCase` | 03-types-values-and-variables/08-strings/advanced.js:169-175 | same length, even positions upper-cased and odd ones lower-cased; the result equals the text when both are upper- or lower-cased |
| `StringParser.RunStrategy` | 03-types-values-and-variables/08-strings/advanced.js:178 | every own strategy keeps the length and changes each character at most by upper- or lower-casing it |
| `StringParser.WordCase` | 03-types-values-and-variables/08-strings/advanced.js:162-168 | the reference casing for 'words': a character is upper-cased at the start and after a space, and otherwise only its case changes |
| `StringParser.Capitalize` | 03-types-values-and-variables/08-strings/advanced.js:158-179 | an own strategy returns a string as long as the text; a name with no member, or an inherited member returning false or undefined, returns the text; 'toString' and 'toLocaleString' return "[object Object]"; an object comes back exactly for 'valueOf' and 'constructor'; a TypeError is thrown exactly for '__proto__', '__defineGetter__' and '__defineSetter__' |
| `StringParser.WordCaseAcross` | 03-types-values-and-variables/08-strings/advanced.js:162-168 | a capitalised first word, the space and a correctly cased rest give the 'words' casing of the whole |
| `StringParser.CapitalizeWordsUnfold` | 03-types-values-and-variables/08-strings/advanced.js:162-168 | 'words' on text with a space is the first word capitalised, the space, then 'words' on the rest |
| `StringParser.CapitalizeWordsAt` | 03-types-values-and-variables/08-strings/advanced.js:162-168 | 'words' keeps the length and upper-cases exactly the characters at the start or after a space, lower-casing the others |
| `StringParser.CapitalizeDefault` | 03-types-values-and-variables/08-strings/advanced.js:158-160 | with no strategy the 'first' strategy runs: index 0 upper-cased, the rest lower-cased, length kept |
| `StringParser.CapitalizeNamed` | 03-types-values-and-variables/08-strings/advanced.js:178 | for a known name the `|| text` fallback never changes the result |
| `StringParser.CapitalizeWordsStrategy` | 03-types-values-and-variables/08-strings/advanced.js:162-168 | `capitalize(text, 'words')` keeps the length and cases each character by whether it starts a word |
| `StringParser.CapitalizeTwoWords` | 03-types-values-and-variables/08-strings/advanced.js:162-168 | two space-separated words are each capitalised |
| `StringParser.CapitalizeOtherStrategies` | 03-types-values-and-variables/08-strings/advanced.js:161-175 | 'all' upper-cases everything; 'toggle' upper-cases even positions and lower-cases odd ones |
| `StringParser.SafeSlice` | 03-types-values-and-variables/08-strings/advanced.js:184-193 | no longer than the string, and equal to the plain `slice` with the same arguments |
| `StringParser.SafeSliceContiguous` | 03-types-values-and-variables/08-strings/advanced.js:184-193 | the result is the contiguous run of the string starting at the clamped start |
| `StringParser.SanitizeUsername` | 03-types-values-and-variables/08-strings/advanced.js:198-204 | at most 20 characters, all from `[a-z0-9_]`: the first 20 kept characters of the trimmed, lower-cased name |
| `StringParser.SanitizeUsernameKeeps` | 03-types-values-and-variables/08-strings/advanced.js:198-204 | a name of at most 20 characters from `[a-z0-9_]` is its own sanitised form |
| `StringParser.SanitizeUsernameIdempotent` | 03-types-values-and-variables/08-strings/advanced.js:198-204 | sanitising twice equals sanitising once |
| `StringParser.FormatUsername` | 03-types-values-and-variables/08-strings/advanced.js:209-212 | the result is as long as the trimmed name and equals the default 'first' capitalisation of it |
| `StringParser.ParseFullNameExample` | 03-types-values-and-variables/08-strings/advanced.js:219-224 | 'Shonjoy Das' parses to Shonjoy / Das / S / D |
| `StringParser.ParseEmailExample` | 03-types-values-and-variables/08-strings/advanced.js:220-225 | 'shonjoy@gmail.com' parses to shonjoy / gmail.com / com |
| `StringParser.CapitalizeFirstExample` | 03-types-values-and-variables/08-strings/advanced.js:226 | 'hello world' becomes 'Hello world' by default |
| `StringParser.CapitalizeWordsExample` | 03-types-values-and-variables/08-strings/advanced.js:227-230 | 'hello world' becomes 'Hello World' under 'words' |
| `StringParser.CapitalizeToggleExample` | 03-types-values-and-variables/08-strings/advanced.js:231-234 | 'hello world' becomes 'HeLlO WoRlD' under 'toggle' |
| `StringParser.CapitalizeInheritedExample` | 03-types-values-and-variables/08-strings/advanced.js:178 | 'toString' gives "[object Object]", 'valueOf' an object, 'hasOwnProperty' the text, and '__proto__' a TypeError |
| `StringParser.SafeSliceExample` | 03-types-values-and-variables/08-strings/advanced.js:235 | `safeSlice('Hello', -2, -1)` is 'l' |
| `StringParser.SanitizeUsernamePadded` | 03-types-values-and-variables/08-strings/advanced.js:198-204 | surrounding whitespace is dropped, and a short name of letters, digits and underscores is only lower-cased |
| `StringParser.SanitizeUsernameExample` | 03-types-values-and-variables/08-strings/advanced.js:221-236 | '  ShOnJoY  ' sanitises to 'shonjoy' |
| `StringParser.FormatUsernamePadded` | 03-types-values-and-variables/08-strings/advanced.js:209-212 | surrounding whitespace is dropped and the rest capitalised |
| `StringParser.FormatUsernameExample` | 03-types-values-and-variables/08-strings/advanced.js:221-237 | '  ShOnJoY  ' formats to 'Shonjoy' |
| `ChainableStrings.ChainableString.constructor` | 03-types-values-and-variables/08-strings/advanced.js:277-279 | the wrapper holds the given string |
| `ChainableStrings.ChainableString.Trim` | 03-types-values-and-variables/08-strings/advanced.js:281-284 | the value becomes its trimmed form and the same object is returned |
| `ChainableStrings.ChainableString.Capitalize` | 03-types-values-and-variables/08-strings/advanced.js:286-290 | the value becomes its first-letter capitalisation and the same object is returned |
| `ChainableStrings.ChainableString.Reverse` | 03-types-values-and-variables/08-strings/advanced.js:292-295 | the value becomes its reversal and the same object is returned |
| `ChainableStrings.ChainableString.RemoveSpaces` | 03-types-values-and-variables/08-strings/advanced.js:297-300 | the value loses all whitespace and the same object is returned |
| `ChainableStrings.ChainableString.AddPrefix` | 03-types-values-and-variables/08-strings/advanced.js:302-305 | the value becomes prefix + old value, same object returned |
| `ChainableStrings.ChainableString.AddSuffix` | 03-types-values-and-variables/08-strings/advanced.js:307-310 | the value becomes old value + suffix, same object returned |
| `ChainableStrings.ChainableString.Get` | 03-types-values-and-variables/08-strings/advanced.js:312-314 | returns the value and changes nothing |
| `ChainableStrings.NewThenGet` | 03-types-values-and-variables/08-strings/advanced.js:277-279 | `new ChainableString(v).get()` is `v` |
| `ChainableStrings.ReverseTwiceRemoveTwice` | 03-types-values-and-variables/08-strings/advanced.js:292-300 | two `reverse` calls restore the value; after two `removeSpaces` calls the value has no whitespace and equals the result of one |
| `ChainableStrings.RemoveWhitespaceBetween` | 03-types-values-and-variables/08-strings/advanced.js:298 | removing whitespace from "a b" with whitespace-free words gives "ab" |
| `ChainableStrings.TrimCapitalizeRemoveTwoWords` | 03-types-values-and-variables/08-strings/advanced.js:319-321 | trim, capitalize and removeSpaces on two padded words give the first capitalised and the second lower-cased, joined |
| `ChainableStrings.Chain` | 03-types-values-and-variables/08-strings/advanced.js:318-324 | the chain yields 'Welcome_' + the trimmed, capitalised, space-free text + '_2024' |
| `ChainableStrings.ChainHelloWorld` | 03-types-values-and-variables/08-strings/advanced.js:318-321 | the first three steps on '  hello world  ' give the capitalised 'hello' followed by 'world' |
| `ChainableStrings.AffixHelloWorld` | 03-types-values-and-variables/08-strings/advanced.js:322-323 | prefix and suffix around that give 'Welcome_Helloworld_2024' |
| `ChainableStrings.ChainExample` | 03-types-values-and-variables/08-strings/advanced.js:318-324 | the chain on '  hello world  ' yields 'Welcome_Helloworld_2024' |
| `NullAndUndefined.Exists` | 03-types-values-and-variables/11-null-and-undefined/script.js:235-238 | a lookup exists exactly when it is neither `undefined` (absent) nor `null` (deleted) |
| `NullAndUndefined.WasDeleted` | 03-types-values-and-variables/11-null-and-undefined/script.js:237-239 | a lookup was deleted exactly when it is `null`, and a deleted user never exists |
| `NullAndUndefined.Find` | 03-types-values-and-variables/11-null-and-undefined/script.js:210-213 | absent exactly when the id was never written, deleted exactly when a tombstone is stored, and otherwise the stored data |
| `NullAndUndefined.UserDatabase.constructor` | 03-types-values-and-variables/11-null-and-undefined/script.js:202-204 | the store starts empty |
| `NullAndUndefined.UserDatabase.AddUser` | 03-types-values-and-variables/11-null-and-undefined/script.js:206-208 | the id now maps to the data, overwriting any earlier entry; every other id is unchanged |
| `NullAndUndefined.UserDatabase.GetUser` | 03-types-values-and-variables/11-null-and-undefined/script.js:210-213 | returns the lookup outcome of the id and changes nothing |
| `NullAndUndefined.UserDatabase.DeleteUser` | 03-types-values-and-variables/11-null-and-undefined/script.js:215-218 | the id now holds the tombstone, whether or not it was added before; every other id is unchanged |
| `NullAndUndefined.FindEmpty` | 03-types-values-and-variables/11-null-and-undefined/script.js:202-213 | every id is absent from a fresh store |
| `NullAndUndefined.FindAfterAdd` | 03-types-values-and-variables/11-null-and-undefined/script.js:206-213 | after an add the id is present with the new data and other ids read as before |
| `NullAndUndefined.FindAfterDelete` | 03-types-values-and-variables/11-null-and-undefined/script.js:210-218 | after a delete the id reads as deleted, never as absent, and other ids read as before |
| `NullAndUndefined.UserDatabaseExample` | 03-types-values-and-variables/11-null-and-undefined/script.js:221-239 | after adding Alice and Bob and deleting Bob: user 1 exists, user 2 was deleted, users 3 and 999 never existed |
| `NullAndUndefined.Text` | 03-types-values-and-variables/11-null-and-undefined/script.js:176 | a string shows as itself; the text "undefined" or "null" comes only from that value or from the string itself |
| `NullAndUndefined.SetConfig` | 03-types-values-and-variables/11-null-and-undefined/script.js:175-177 | the result always starts with "Theme is: " |
| `NullAndUndefined.SetConfigDefault` | 03-types-values-and-variables/11-null-and-undefined/script.js:175-182 | the light theme results exactly for a missing or undefined argument or 'light' itself; `null` gives "Theme is: null" and a string is shown as given |
| `NullAndUndefined.SetConfigExamples` | 03-types-values-and-variables/11-null-and-undefined/script.js:179-182 | 'dark', undefined and null give the commented results |
| `ImmutableVsMutable.JsArray.constructor` | 03-types-values-and-variables/13-immutable-vs-mutable/script.js:148 | an array literal holds the listed elements |
| `ImmutableVsMutable.JsArray.Push` | 03-types-values-and-variables/13-immutable-vs-mutable/script.js:294 | appends the element in place and returns the new length |
| `ImmutableVsMutable.JsArray.Put` | 03-types-values-and-variables/13-immutable-vs-mutable/script.js:151 | writing an index replaces that element, or appends at the end index |
| `ImmutableVsMutable.EqualArrays` | 03-types-values-and-variables/13-immutable-vs-mutable/script.js:209-217 | true exactly when the contents are equal index by index; true for the same reference; false for different lengths; neither array changes |
| `ImmutableVsMutable.EqualArraysExample` | 03-types-values-and-variables/13-immutable-vs-mutable/script.js:219-225 | two equal literals are different references yet `equalArrays` holds; an alias is the same reference |
| `ImmutableVsMutable.JsObject.constructor` | 03-types-values-and-variables/13-immutable-vs-mutable/script.js:246 | an object literal lists its keys in order, each with its value |
| `ImmutableVsMutable.EqualObjects` | 03-types-values-and-variables/13-immutable-vs-mutable/script.js:228-244 | true exactly for the same value or reference, or two non-null objects with as many keys where every key of the first is a key of the second with a strictly equal value |
| `ImmutableVsMutable.ShallowEqualSameProperties` | 03-types-values-and-variables/13-immutable-vs-mutable/script.js:233-241 | for well-formed objects the key-count-and-lookup test holds exactly when both have the same properties and values |
| `ImmutableVsMutable.SamePropertiesShallowEqual` | 03-types-values-and-variables/13-immutable-vs-mutable/script.js:233-241 | objects with the same properties pass the test |
| `ImmutableVsMutable.ShallowEqualSamePropertiesOnly` | 03-types-values-and-variables/13-immutable-vs-mutable/script.js:233-241 | objects that pass the test have the same properties |
| `ImmutableVsMutable.DistinctCard` | 03-types-values-and-variables/13-immutable-vs-mutable/script.js:236 | a key list without repeats has as many distinct keys as entries |
| `ImmutableVsMutable.SubsetSameSize` | 03-types-values-and-variables/13-immutable-vs-mutable/script.js:236-239 | a key set inside another of the same size equals it |
| `ImmutableVsMutable.EqualObjectsExample` | 03-types-values-and-variables/13-immutable-vs-mutable/script.js:246-252 | two equal literals are different references yet `equalObjects` holds; an alias is the same reference |
| `ImmutableVsMutable.AddItemBad` | 03-types-values-and-variables/13-immutable-vs-mutable/script.js:293-296 | the argument array itself gains the item and is returned |
| `ImmutableVsMutable.AddItemGood` | 03-types-values-and-variables/13-immutable-vs-mutable/script.js:304-306 | a fresh array of the old elements plus the item; the argument is untouched |
| `ImmutableVsMutable.AddItemExample` | 03-types-values-and-variables/13-immutable-vs-mutable/script.js:298-312 | the bad version changes the original to [1, 2, 3, 4] and returns it; the good one leaves [1, 2, 3] and returns a new [1, 2, 3, 4] |
| `ImmutableVsMutable.CopyByLoop` | 03-types-values-and-variables/13-immutable-vs-mutable/script.js:149-152 | the loop keeps the copy equal to the source's prefix, and at exit a fresh array equals the source |
| `ImmutableVsMutable.ManualCopyExample` | 03-types-values-and-variables/13-immutable-vs-mutable/script.js:148-155 | after the copy, writing 'CHANGED' to the source leaves the copy ['a', 'b', 'c'] |
| `ImmutableVsMutable.ShoppingCart.constructor` | 03-types-values-and-variables/13-immutable-vs-mutable/script.js:343-345 | a new cart owns a fresh empty array |
| `ImmutableVsMutable.ShoppingCart.AddItemsMutating` | 03-types-values-and-variables/13-immutable-vs-mutable/script.js:348-350 | the cart's items are the caller's array itself |
| `ImmutableVsMutable.ShoppingCart.AddItemsSafe` | 03-types-values-and-variables/13-immutable-vs-mutable/script.js:353-355 | the cart's items are a fresh array with the caller's contents |
| `ImmutableVsMutable.ShoppingCartExample` | 03-types-values-and-variables/13-immutable-vs-mutable/script.js:358-370 | a later push to the external array shows in the sharing cart, not in the copying one |

## Left out

- Case mapping is ASCII only. Full Unicode case mapping is not modelled. For example,
  `'İ'.toLowerCase()` and the Kelvin sign produce ASCII letters that `sanitizeUsername`
  would keep.
- UTF-16 code units are not modelled. A Dafny `char` is a Unicode scalar value, so
  a character outside the Basic Multilingual Plane (an emoji, say) counts as one here
  and as two in JavaScript. On such text the model and the source differ in lengths,
  `indexOf`/`lastIndexOf` positions, `slice` and `safeSlice` indices, `charAt(0)`,
  the 20-unit cut of `sanitizeUsername`, `reverse` (which in JavaScript splits the
  surrogate pair) and 'toggle'. A lone surrogate cannot be represented at all. On text
  inside the Basic Multilingual Plane, code units and characters coincide.
- The object returned for 'valueOf' or 'constructor' is not modelled beyond being an
  object.
- Arguments that are not strings are left out: a number as strategy or theme, a
  non-string `text`, or `NaN` or fractional slice indices.
- StringParser.Capitalize: takes `strategy` to be a string or undefined (`None`).
- `UserDatabase` data is generic and cannot itself be `null` or `undefined`. Storing
  those through `addUser` would read back as deleted or absent, and this is not
  modelled. Ids are compared with Dafny equality rather than SameValueZero.
- The insertion order of the `Map` is not modelled.
- `setConfig` is modelled for string, `null` and missing or `undefined` arguments only.
- Array elements and object values are compared with Dafny equality:
  - numbers are unbounded integers;
  - `NaN !== NaN` and `+0 === -0` are not modelled;
  - floats are left out.
- ImmutableVsMutable.JsArray.Put requires an index at most the length, because writes
  further out create holes (sparse arrays), which are not modelled.
- ImmutableVsMutable.EqualObjects requires well-formed objects: each key listed once
  and given a value. A JavaScript object always has this form.
- These cases of `equalObjects` are left out:
  - functions (`typeof` 'function');
  - arrays passed as objects;
  - symbol keys;
  - inherited and non-enumerable properties.
- ImmutableVsMutable.JsObject.constructor requires distinct keys. In an object literal
  with a repeated key, the last one wins; this is not modelled.
- Left out as output and runtime demos:
  - all `console.log` output;
  - `JSON.stringify`;
  - `normalize()`;
  - the `const` reassignment `try`/`catch`;
  - the built-in copy demos (`Array.from`, spread, `slice`, `Object.assign`);
  - the pass-by-value and pass-by-reference demos.
- The other lessons (numbers, locale formatting, coercion, symbols, booleans) are
  floating point, host library calls or runtime semantics, and are not part of this
  model.

## Findings

| source | as written | input that shows it | evidently intended | confidence | as-written member | corrected member |
|---|---|---|---|---|---|---|
| 03-types-values-and-variables/08-strings/advanced.js:134-137 | without a space, `indexOf` gives -1, so `slice(0, -1)` drops the last letter from the first name and `slice(0)` makes the whole name the last name | `parseFullName('Cher')` gives first name 'Che', last name 'Cher' | a one-word name is the first name, with an empty last name | not executed | `StringParser.SingleWordNameLosesLastLetter` | `StringParser.ParseFullNameFixed` |
| 03-types-values-and-variables/08-strings/advanced.js:151 | the top-level domain is taken after the last '.' of the whole address, so a '.' in the user name counts when the domain has none | `parseEmail('a.b@host')` gives top-level domain 'b@host' | the top-level domain is taken from the domain part | not executed | `StringParser.DottedUserTopLevelDomain` | `StringParser.ParseEmailFixed` |

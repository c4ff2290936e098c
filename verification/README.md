# geo_parser in Dafny

A model of `geo_parser.h`, a single-pass parser for the Well-Known Text (WKT)
notation of coordinate reference systems, such as
`PROJCS["UTM",GEOGCS[...],UNIT["Meter",1]]`, together with the `find` query
that searches the parsed tree by label. The model follows the C++ code
branch for branch:

- `Tokens`: the error and token-kind enumerations and the token record. A
  token has a kind, a label, a double flag and its children. `createToken`
  and `updateToken` are modelled here.
- `Lexer`: `skip` and the three scanners. `processAlpha` reads array names,
  `processDigit` reads numbers and `processString` reads quoted strings.
  Each `for` loop is a recursion on the cursor. A scanner returns its error,
  its output string and the cursor where it stopped. The caller's output
  variable is a parameter, so "left unchanged" can be stated.
- `Builder`: `popAndPushToken` and `geo_parser`. The token stack is a
  sequence, bottom first. The pass is one iteration (`StepAt`) driven over
  the input (`Drive`). The caller's root becomes the bottom entry when the
  first value read is a name; if the first value is a number or a string,
  the root is never touched. The two inputs on which the C++ code has undefined
  behaviour end in a separate outcome, `Undefined`, and not in an error
  kind:
  - `StackUnderflow`: a ',' or ']' pops with fewer than two entries.
  - `CursorPastEnd`: input ends inside a name or number, so the loop
    increments its iterator past the end.
- `Printer`: the notation written out from a tree, with no whitespace. Its
  theorem is that parsing the printed form of any well-formed array
  rebuilds it exactly, children in textual order.
- `Search`: `find`, returning the path of child indices to the node it
  finds. A path is used in place of a pointer. The result is compared with
  an independent description: the nodes reachable through arrays, and
  pre-order on paths.
- `Witness`: main.cpp's input and the tree it parses to, and its query for
  `"UNIT"`.
- `Edges`: small inputs that show each way a pass can end.
- `Text`: the character classes, with `isalpha`, `isdigit` and `isalnum` in
  the C locale, and the small sequence functions the others use.

## Model

| member | source | states |
|---|---|---|
| Tokens.CreateToken | geo_parser.h:39-52 | A new token has the given kind and label and no children. It is flagged as a double exactly when it is a primitive whose label contains a '.'. |
| Tokens.UpdateToken | geo_parser.h:54-58 | Only the kind and label change; the double flag and the children stay as they were. |
| Lexer.Skip | geo_parser.h:60-70 | True exactly for space, tab, newline and carriage return. |
| Lexer.ProcessAlpha | geo_parser.h:72-100 | The cursor stops on the first '[' from the start position, or at the end of input. The name is the alphanumeric characters before it, with whitespace dropped. Without a '[' the caller's string is left as it was. The result is a syntax error exactly when some earlier character is neither alphanumeric nor whitespace, so a later character never clears it. |
| Lexer.AlphaLoop | geo_parser.h:78-98 | The loop from any cursor: it stops at the first '[' at or after the cursor. It keeps the filtered text and the stray-character flag for the whole stretch read. |
| Lexer.ProcessDigit | geo_parser.h:102-131 | Digits, '.', '+' and '-' are kept in any mix, such as `1-2.3.4`; whitespace is dropped. At the first ',' or ']' the cursor is stepped back one place, so the caller's increment lands on it. With no terminator the cursor is at the end and the caller's string is unchanged. The result is a syntax error exactly when some earlier character is none of those. |
| Lexer.DigitLoop | geo_parser.h:108-129 | The loop from any cursor: it stops at the first terminator at or after the cursor. It keeps the filtered text and the stray-character flag for the whole stretch read. |
| Lexer.ProcessString | geo_parser.h:133-160 | The cursor stops on the first '"'. The body is every character before it, verbatim, commas and brackets included. With no closing quote the result is `UnclosedQuotes` and the caller's string is unchanged. |
| Lexer.StringLoop | geo_parser.h:139-150 | The loop from any cursor: it stops at the first '"' at or after the cursor, and the text collected so far is the slice read. |
| Lexer.ConsumeExtends | geo_parser.h:81-97 | One iteration keeps the scanner loops' invariant: the text collected is the kept characters read so far, and the error is set exactly when a stray character has been read. |
| Builder.PopAndPush | geo_parser.h:162-169 | The stack loses exactly its top entry, which becomes the last child of the entry below. That entry keeps its kind, label, flag and earlier children, and every entry further down is untouched. |
| Builder.PopAndPushKeepsBottom | geo_parser.h:162-169 | Popping and attaching never changes the bottom entry's kind, label or flag, and only adds to the end of its children. |
| Builder.StepAt | geo_parser.h:179-247 | One iteration: when it goes on, the cursor moves forward and the root, once pushed, stays an array at the bottom. When it stops on an error, the stack is as it was and the error is a syntax error or an unclosed quote. |
| Builder.Drive | geo_parser.h:175-248 | The pass stops only with `NoError`, `SyntaxError` or `UnclosedQuotes`, never with `InvalidValue` or `UnclosedBrackets`. The root, once pushed, is still an array at the bottom. |
| Builder.GeoParser | geo_parser.h:171-250 | Only `NoError`, `SyntaxError` or `UnclosedQuotes` are returned. The caller's root is either untouched or has become an array. |
| Builder.StepKeepsRoot | geo_parser.h:180-234 | Once the root is pushed, an iteration keeps it at the bottom with the same label and flag, and only adds to its children. |
| Builder.DriveKeepsRoot | geo_parser.h:175-248 | Over the whole pass, the root is never popped, keeps its kind, label and flag, and its children only grow at the end. |
| Builder.AlphaTokenIsLexical | geo_parser.h:180-196 | A name the scanner delivers, started by a letter and ended by '[', is an identifier: a letter followed by alphanumerics. |
| Builder.DigitTokenIsLexical | geo_parser.h:198-206 | A number the scanner delivers is non-empty, starts with a digit or sign, and holds only digits, signs and points. The token made from it is a double exactly when it has a point. |
| Builder.StringTokenIsLexical | geo_parser.h:212-221 | A string body the scanner delivers holds no '"'. |
| Builder.PopAndPushKeepsFrame | geo_parser.h:162-169 | Attaching preserves the stack invariant: the filled root and every pushed token keep their scanner's shape. |
| Builder.StepKeepsFrame | geo_parser.h:179-247 | One iteration preserves the stack invariant. |
| Builder.DriveKeepsFrame | geo_parser.h:175-248 | The whole pass preserves the stack invariant. |
| Builder.ParsedTreeIsLexical | geo_parser.h:171-250 | Whatever the input and the error, the returned root is either untouched, or an identifier-named array that keeps its earlier children. Every child the pass attached has its scanner's shape all the way down. |
| Builder.DriveSkipsWhitespace | geo_parser.h:235-238 | Whitespace between values is passed over without touching the stack. |
| Builder.RootTakesFirstIdentifier | geo_parser.h:180-196 | When the first non-blank character is a letter, a finished pass leaves the root an array labelled with that identifier. If the identifier is malformed, the pass ends at once with a syntax error and the root untouched. |
| Builder.StrayCharacterStops | geo_parser.h:239-243 | A character that starts no value and is no delimiter ends the pass there with a syntax error and the stack as it was. Nothing after it is read, so any continuation gives the same result. |
| Printer.ParseItems | geo_parser.h:227-234 | The printed items of an array, with their separators and closing ']', are read in full. They are appended, in order, to the children of the entry on top of the stack. |
| Printer.ParsePrinted | geo_parser.h:171-250 | Parsing a well-formed array's printed form returns no error. The caller's root becomes an array with that label, and that array's children follow any children the root already had. |
| Printer.ParsePrintRoundTrip | geo_parser.h:171-250 | With a childless root, parsing the printed form of a well-formed array gives exactly that array back. |
| Search.Find | geo_parser.h:252-280 | Any result is a node reachable through arrays whose label is the key. The start node itself is returned exactly when its own label is the key. |
| Search.FindIn | geo_parser.h:260-277 | Any hit is among the children from the current one on, and is reachable through arrays with a label equal to the key. |
| Search.FindIsFirstInPreOrder | geo_parser.h:252-280 | There is no result exactly when no node reachable through arrays carries the key. Otherwise the result comes first in pre-order among all such nodes. The tree is an immutable value, so the search cannot change it. |
| Search.FindComplete | geo_parser.h:254-275 | Every reachable match is found, or a match before it in pre-order is found. |
| Witness.PrintMainTree | main.cpp:6 | The tree below, printed, is main.cpp's input. |
| Witness.MainParses | main.cpp:6-8 | Parsing main.cpp's input into a default root returns no error. The root becomes the whole PROJCS tree: GEOGCS with DATUM, SPHEROID, TOWGS84, PRIMEM and the degree UNIT, then PROJECTION, the five PARAMETERs, the metre UNIT and AUTHORITY, each with its values in order. |
| Witness.MainFindsNestedUnit | main.cpp:9 | The search for "UNIT" returns the angular UNIT inside GEOGCS, not the linear UNIT that is a direct child of the root. Both match; the nested one comes first in pre-order. |
| Witness.MainMissesStringLabel | geo_parser.h:262 | The search for "Meter" finds nothing, although "Meter" is the label of a string in the tree: strings are never searched. |
| Edges.DoubleOpen | geo_parser.h:239-243 | `A[[1]]`: the second '[' is a stray character. The pass returns a syntax error with the root named `A` and no children added. |
| Edges.StrayAfterValue | geo_parser.h:239-243 | `FOO[1,@,2]`: a syntax error at '@'. The `1` already attached stays, and nothing after '@' is read. |
| Edges.LeadingStray | geo_parser.h:239-243 | `@A[1]`: a syntax error before the root is touched. |
| Edges.OpenQuote | geo_parser.h:151-154 | `FOO["abc]`: `UnclosedQuotes`, and the string is not attached. |
| Edges.MixedNumber | geo_parser.h:111-114 | `A[1-2.3.4]` parses with no error into one primitive child labelled `1-2.3.4` and flagged as a double. |
| Edges.BlankInsideNumber | geo_parser.h:121-124 | `A[1 2]` parses with no error into one primitive child labelled `12`: the number scanner drops the blank and keeps the digits on both sides. |
| Edges.UnclosedBracket | geo_parser.h:244-249 | `FOO["abc"`: the missing ']' is not reported. The pass returns `NoError` and the string, still on the stack, never reaches the root. |
| Edges.Underflow | geo_parser.h:231-234 | `A[]`: the ']' pops while only the root is on the stack, which is undefined behaviour in the C++ code. |
| Edges.PastEnd | geo_parser.h:174-177 | `A[1`: input ends inside a number, so the loop's increment runs past the end. |

## Left out

- Input and output: the printing in main.cpp is not modelled. The query's result is stated as a path and the node at it.
- Memory and ownership: raw and unique pointers, and the `parent` back-pointer, are not modelled. A node's parent is the node whose children contain it.
- Locale: `isalpha`, `isdigit` and `isalnum` are taken in the C locale over ASCII letters and digits. The C++ code reads bytes while a Dafny `string` holds Unicode characters, and `isalpha` of a negative `char` is undefined in C++. On valid UTF-8 the outcomes agree: every non-ASCII byte or character is stray outside quotes and kept verbatim inside them.
- Undefined behaviour: a pop with fewer than two stack entries and an iterator run past the end give `Undefined`, not a guess at what the compiled code would do.
- Lexer.ProcessDigit: the C++ code steps the cursor back before a terminator, which is undefined when the terminator is the first character of the whole input. `geo_parser` never makes that call, and the precondition rules it out.
- Numbers are kept as their raw text; no numeric value is computed. The C++ code does not compute one either.
- `InvalidValue` and `UnclosedBrackets` are in the error enumeration but are never produced, as in the C++ code.
- Search.Find: returns the path to the node instead of a pointer to it. The node is `At(tree, path)`.
- Witness.MainParses: main.cpp's `ParserToken root;` leaves the kind uninitialised, so the lemma holds for any kind. The label is empty, the flag is false and there are no children, as in the C++ code.
- Witness.PrintMainTree: main.cpp's input is written as a composition of its values' texts, not as one 568-character literal.
- Printer.ParsePrintRoundTrip: covers printed text without whitespace and with every array non-empty. No general lemma states the parsed tree, or even `NoError`, for well-formed inputs with blanks in them. For every input, the Builder lemmas give only these: the error kinds that can come out, that the root is kept, the token shapes (`ParsedTreeIsLexical`), and that blanks are skipped where a value starts (`DriveSkipsWhitespace`). `Edges.BlankInsideNumber` shows one input with a blank.

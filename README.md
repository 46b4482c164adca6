# mondoo-go core in Dafny

This project models two parts of the Go client library for the Mondoo GraphQL
API and proves properties about them.

1. **The binding generator** (`gen/gen.go`). It turns the introspected GraphQL
   schema into Go declarations. The model covers:
   - the recursive type-reference resolver `typeString`;
   - the template helpers `internal`, `sortByName`, `inputObjects`,
     `enumIdentifier`, `clean`, `endSentence` and `fullSentence`;
   - which types the enum and input templates declare, and in which order;
   - the required-first field order of an input struct;
   - the file-writing loop of `generateSchema`, including the text written
     when gofmt fails.
2. **Client configuration.** The pieces are:
   - options applied in order to a zero `DialSettings` record
     (`option/option.go`, `newSettings`);
   - validation of the result (`internal/settings.go`);
   - the choice of authenticating transport (`newTransport`);
   - the header copy of the user-agent transport;
   - the default options `NewClient` puts in front of the caller's;
   - the in-place update of the variables map in `Mutate`.

Modules, one per file:
- `Results`: `Option` and `Result`.
- `GoStrings`:
  - `strings.HasPrefix` and `strings.HasSuffix`;
  - Go's `<` on strings and its order lemmas;
  - `unicode.IsSpace`, `strings.Fields` and `strings.Join`.
- `Collections`: an in-place sort by a string key, and an order-preserving filter.
- `Gen`: the generator.
- `GoMaps`: a Go map as a mutable reference.
- `Settings`, `Options`, `Http`, `Client`: the configuration path.

How the model is arranged:
- **Mutation in the source is mutation in the model.**
  - `sortByName` sorts an `array` in place.
  - Settings are a class whose field each `Apply` writes.
  - Header and variables maps are `GoMap` objects updated with `Put`.
- **Loops stay loops.** `inputObjects`, `newSettings`, the header copy and the
  write loop of `generateSchema` are methods with loop invariants.
- **Pure helpers are functions**, with lemmas about them.
- **Panics are values.** A Go panic is the `Err` side of a `Result`.
- **Foreign code is a parameter**, so the model assumes nothing about it:
  - the `ident` casing functions;
  - gofmt;
  - the template engine's own failures;
  - file writes;
  - the service-account signer.

Three points where the model follows the code rather than the usual description
of the system or the repository's own test:
- **The input template keeps `__` names.** The input template (gen/gen.go:245)
  tests only `kind == "INPUT_OBJECT"`. Unlike the enum template, it does not
  skip internal `__` names. `Gen.InputTemplateExact` states this.
- **`NewHttpClient` ignores `WithHTTPClient`.** `NewHttpClient` always builds its
  transport on `http.DefaultTransport`. The `HTTPClient` setting is stored but
  never read, so `WithHTTPClient` has no effect on the client that is built.
  `Http.ClientForIgnoresHTTPClient` states this.
- **A client needs credentials.** The test in client_test.go:46-47 expects
  `NewClient(option.WithEndpoint(url))` to succeed. In the code, the defaults
  added at client.go:24 configure no credentials, and `newTransport` then fails
  with "no authentication configured" (internal/http/http.go:63-64).
  `Client.EndpointOnlyRefused` states this for every endpoint.

## Model

| member | source | states |
|---|---|---|
| Gen.TypeString | gen/gen.go:270-283 | The resolver: a named leaf, a LIST and a NON_NULL case, with a panic as `Err`. It has no contract of its own; Gen.TypeStringNamedAndList, Gen.TypeStringNonNull, Gen.TypeStringPartiality and Gen.TypeStringInjective characterise it. |
| Gen.TypeStringNamedAndList | gen/gen.go:278-281 | A named leaf resolves to `"*" + name`. A list resolves to `"*[]"` followed by its element's own type string, and an element that panics makes the list panic. |
| Gen.TypeStringNonNull | gen/gen.go:272-277 | NON_NULL yields the element's string with exactly its leading `*` removed. It panics with that string when the string does not start with `*`. |
| Gen.TypeStringPartiality | gen/gen.go:270-283 | Over GraphQL names, typeString succeeds iff no NON_NULL directly wraps a NON_NULL. A successful result starts with `*` iff the reference is not NON_NULL. |
| Gen.TypeStringHead | gen/gen.go:270-283 | The first characters of a resolved string identify the outer wrappers: `*` plus a name, `*[]`, a bare name, or `[]`. |
| Gen.TypeStringInjective | gen/gen.go:270-283 | Over GraphQL names, two references that resolve to the same Go type have the same wrapper structure and leaf names. |
| GoStrings.Less | gen/gen.go:294 | Go's `<` on strings, as lexicographic order on characters. It has no contract of its own; GoStrings.LessIrreflexive, GoStrings.LessTransitive and GoStrings.LessTotal characterise it. |
| GoStrings.LessIrreflexive | gen/gen.go:294 | Go's `<` on strings is irreflexive. |
| GoStrings.LessTransitive | gen/gen.go:294 | Go's `<` on strings is transitive. |
| GoStrings.LessTotal | gen/gen.go:294 | Of two different strings, one is `<` the other. |
| GoStrings.HasPrefix | gen/gen.go:274 | `strings.HasPrefix`: the text begins with the given prefix. It has no contract of its own; it is a definition. Gen.TypeStringNonNull states the NON_NULL check at gen/gen.go:274, Gen.EnumTemplateExact and Gen.InputTemplateExact state `internal` at gen/gen.go:287, and Gen.EndSentence states the two prefix cases at gen/gen.go:321 and 323. |
| GoStrings.HasSuffix | gen/gen.go:326 | `strings.HasSuffix`: the text ends with the given suffix. It has no contract of its own; it is a definition. Gen.FullSentence states the `.` check of gen/gen.go:326 and 332. |
| Collections.SortBy | gen/gen.go:291-295 | After an in-place sort by key, no later element's key is `<` an earlier one's. The array holds the same multiset of elements as before. |
| Gen.SortByName | gen/gen.go:290-297 | The type list is sorted in place by name and is a permutation of the input. The order of equal names is not fixed. |
| Collections.SortedPermutationsEqual | gen/gen.go:290-297 | Two sorted arrangements of the same elements are equal when keys determine elements. So with unique names the result of sortByName does not depend on the input order. |
| Gen.InputObjectNamesExact | gen/gen.go:298-306 | A name is collected iff some INPUT_OBJECT type carries it. |
| Gen.InputObjects | gen/gen.go:298-309 | The result is sorted. As a multiset it equals the names of the INPUT_OBJECT types, one per such type. |
| Gen.Internal | gen/gen.go:287 | `internal`: the name starts with `__`. It has no contract of its own; Gen.EnumTemplateExact and Gen.InputTemplateExact state how the two templates use it. |
| Gen.EnumIdentifier | gen/gen.go:311-313 | The enum's name is a prefix of each of its identifiers. |
| Gen.EnumIdentifierSeparatesEnums | gen/gen.go:311-313 | For one value, two different enum names give different identifiers. |
| Gen.EnumIdentifierSeparatesValues | gen/gen.go:311-313 | Within one enum, values whose cased forms differ give different identifiers. |
| Gen.EnumBlock | gen/gen.go:223-230 | An enum block declares the type's name and one constant per enum value, in order. Each constant holds its value. Its identifier is the enum identifier of the type name and that value, so it starts with the type name. |
| Gen.EnumBlockDistinctIdentifiers | gen/gen.go:227-228 | Within one enum block, two constants whose values have different mixed-caps forms get different identifiers. |
| Gen.EnumTemplate | gen/gen.go:219-221 | The blocks the enum template declares over the type list. It has no contract of its own; Gen.EnumTemplateExact, Gen.EnumTemplateOncePerType and Gen.TemplatesDeterministic characterise it. |
| Gen.EnumTemplateExact | gen/gen.go:219-221 | Every block the enum template declares belongs to an ENUM type whose name is not internal (`__` prefix), and every such type has its block. No declared name is internal. Over a sorted list the blocks come in name order. |
| Gen.EnumTemplateOncePerType | gen/gen.go:219-221 | With unique type names, no two blocks declare the same type, so each enum is declared exactly once. |
| Collections.FilterUniqueKeys | gen/gen.go:219 | Filtering a list whose keys are unique keeps them unique, so no element is selected twice. |
| Gen.ExecuteEnumTemplate | gen/gen.go:219-221 | The type list is sorted in place as a permutation, and the blocks emitted are the enum template of the sorted list, in name order. |
| Gen.FieldOrder | gen/gen.go:252-257 | The order the input sub-template emits fields in. It has no contract of its own; Gen.FieldOrderProperties characterises it. |
| Gen.FieldOrderProperties | gen/gen.go:252-257 | Every field of an input object is emitted exactly once, as a permutation. Every NON_NULL field precedes every other field, and each group keeps the schema's order. |
| Gen.DeclareField | gen/gen.go:252-257 | One emitted struct field: identifier, Go type and JSON tag. It has no contract of its own; Gen.DeclareFieldRequiredness characterises it. |
| Gen.DeclareFieldRequiredness | gen/gen.go:252-257 | Over GraphQL names, a field's Go type is its typeString. It lacks a leading `*` iff the field is NON_NULL. Only optional fields add `,omitempty` to the JSON tag. |
| Gen.MapOrPanic | gen/gen.go:245-257 | Running a helper over a list succeeds iff every element succeeds, keeping order and length. Otherwise the first panicking element's panic is reported. |
| Gen.InputBlock | gen/gen.go:250-259 | The input sub-template for one type. It has no contract of its own; Gen.InputBlockFields characterises it. |
| Gen.InputBlockFields | gen/gen.go:250-259 | An input struct declares its type's name and one field per entry of the required-first order, each declared by DeclareField. |
| Gen.InputTemplate | gen/gen.go:245-247 | The structs the input template declares over the type list, or the first panic. It has no contract of its own; Gen.InputTemplateExact and Gen.TemplatesDeterministic characterise it. |
| Gen.InputTemplateExact | gen/gen.go:245-247 | The input template declares one struct per INPUT_OBJECT type, in list order, `__` names included. |
| Gen.ExecuteInputTemplate | gen/gen.go:243-247 | The doc-comment names are the sorted INPUT_OBJECT names of the original list. The list is then sorted in place as a permutation. The result is the input template of the sorted list, or its panic. |
| Gen.TemplatesDeterministic | gen/gen.go:219-247 | Two sorted type lists that are permutations of each other with unique names produce the same enum and input declarations. |
| GoStrings.IsSpace | gen/gen.go:315 | `unicode.IsSpace`, the separator test of `strings.Fields`: the Latin-1 spaces and the Unicode White_Space characters. It has no contract of its own; it is a definition. |
| GoStrings.Fields | gen/gen.go:315 | `strings.Fields`: every element is a non-empty word without whitespace. GoStrings.FieldsOfJoin and Gen.Clean state the rest. |
| GoStrings.Join | gen/gen.go:315 | `strings.Join`. It has no contract of its own; GoStrings.FieldsOfJoin and Gen.Clean characterise it. |
| Gen.Clean | gen/gen.go:315 | The result has no leading, trailing or doubled whitespace. It splits into exactly the same words as the input, and it has the same non-space characters, in order. |
| GoStrings.FieldsOfJoin | gen/gen.go:315 | Splitting on whitespace undoes joining non-empty, space-free words with one space. |
| Gen.CleanIdempotent | gen/gen.go:315 | Cleaning twice is cleaning once. |
| Gen.FullSentence | gen/gen.go:331-336 | The result ends in `.`, starts with the input and is at most one character longer. A text already ending in `.` is unchanged. |
| Gen.FullSentenceIdempotent | gen/gen.go:331-336 | Applying fullSentence twice is applying it once. |
| Gen.ToLowerASCII | gen/gen.go:317 | The lower-casing of the first character in endSentence, for ASCII letters. It has no contract of its own; Gen.EndSentence states its effect, and the line on Gen.EndSentence under "Left out" covers the non-ASCII gap. |
| Gen.SentenceLead | gen/gen.go:318-325 | The phrase endSentence puts in front: "is an " before "autogenerated ", nothing before "specifies ", "represents " otherwise. It has no contract of its own; Gen.EndSentence states the switch through it. |
| Gen.EndSentence | gen/gen.go:316-330 | It panics (a slice out of range) iff the text is empty. Otherwise the first character is lower-cased, then "is an " or "represents " is put in front, or nothing before "specifies ". The sentence always ends in `.`. |
| Gen.FormatOutput | gen/gen.go:55-59 | When gofmt succeeds its output is written. When it fails, exactly the line `// gofmt error: <message>`, an empty line and then the raw text are written, with nothing in between. |
| Gen.FormatOutputKeepsRendered | gen/gen.go:58 | The fallback text is the comment header followed by the rendered text, and the rendered text can be read back from it after the header. |
| Gen.GenerateSchema | gen/gen.go:38-71 | A load error is returned before anything is written. The call succeeds iff every template renders and writes, and then every template's file is written, in order. Each written file is the formatted output of its template under the base path. On failure the first failing template's error is returned, and the list of written files holds exactly the templates before it. |
| Settings.Validate | internal/settings.go:26-40 | Skipping validation accepts everything. Otherwise a recorded token error is returned first, then NoAuth with a token source gives the "cannot use both" error. The result is nil in exactly the remaining cases. |
| Options.Applied | option/option.go:33-110 | The settings after one option's `Apply`. It has no contract of its own; Options.Apply and the option constructors' contracts state it option by option. |
| Options.Apply | option/option.go:33-110 | Each option writes its own fields of the settings and no other. A token-source option always writes TokenSource and TokenError, and writes Endpoint (`endpoint + "/query"`) only for a non-empty endpoint. |
| Options.WithUserAgent | option/option.go:27-33 | Applying it sets UserAgent and nothing else. |
| Options.WithHTTPClient | option/option.go:36-44 | Applying it sets HTTPClient and nothing else. |
| Options.WithTokenSource | option/option.go:47-63 | Applying it sets TokenSource, clears TokenError and leaves Endpoint alone. |
| Options.WithAPIToken | option/option.go:66-71 | Applying it installs a static token source for the token with no error and leaves Endpoint alone. |
| Options.WithServiceAccount | option/option.go:74-80 | A signer failure records the error with a nil token source. |
| Options.WithServiceAccountFile | option/option.go:83-89 | A read failure gives the same option as a failing service account. Otherwise the file's bytes go through WithServiceAccount. |
| Options.WithoutAuthentication | option/option.go:93-99 | Applying it sets NoAuth and nothing else. |
| Options.WithEndpoint | option/option.go:102-110 | Applying it sets Endpoint to exactly the URL and nothing else. |
| Options.UseUSRegion | option/option.go:113-115 | It is WithEndpoint of the US endpoint constant. |
| Options.UseEURegion | option/option.go:118-120 | It is WithEndpoint of the EU endpoint constant. |
| Options.WithDefaultEndpoint | option/option.go:123-125 | It is the same option as UseUSRegion. |
| Options.Fold | internal/http/http.go:21-24 | The options applied left to right to the zero settings. It has no contract of its own; Options.FoldIsLastWriterWins, Options.FoldNoAuth and Http.NewSettings characterise it. |
| Options.FoldIsLastWriterWins | internal/http/http.go:21-24 | Applying the options left to right to the zero settings gives, for each field, the value of the last option that writes it, or the zero value if none does. |
| Options.FoldNoAuth | internal/http/http.go:21-24 | NoAuth ends up set iff some option disables authentication. No option sets SkipValidation. |
| Options.LastAppend | internal/http/http.go:22-24 | For options `a` followed by `b`, the last writer in `b` wins, otherwise the last writer in `a`. |
| Options.ServiceAccountErrorReported | option/option.go:74-80 | A failing service account followed by options that do not touch the token settings makes Validate return exactly that error. |
| Http.NewSettings | internal/http/http.go:20-29 | The method fails iff Validate rejects the folded options, and then returns that error and no settings. Otherwise it returns new settings equal to the fold. |
| Http.NewTransport | internal/http/http.go:47-67 | With NoAuth the parameter transport is returned unwrapped. Otherwise a token source wraps it in the OAuth transport, and with neither it fails with "no authentication configured". |
| Http.NewHttpClient | internal/http/http.go:32-44 | The result is the validated, folded settings' transport together with their endpoint, or the first error. |
| Http.ClientFor | internal/http/http.go:32-44 | What NewHttpClient returns for the folded settings. It has no contract of its own; Http.ClientForOutcome, Http.ClientForIgnoresHTTPClient and Http.NoCredentialsRefused characterise it. |
| Http.ClientForOutcome | internal/http/http.go:32-44 | A client is built iff there is no token error and either NoAuth without a token source or a token source without NoAuth. The endpoint returned is the last one written by the options, unchanged. The transport is OAuth-wrapped iff NoAuth is unset. |
| Http.ClientForIgnoresHTTPClient | internal/http/http.go:32-44 | The client built does not depend on the HTTPClient setting. |
| Http.RoundTrip | internal/http/http.go:76-91 | Without a base transport it fails with the fixed error. Otherwise the forwarded request has a new header map holding every original entry, with User-Agent replaced iff a user agent is configured. The caller's map is not written. |
| Http.ForwardedHeaderKeepsEntries | internal/http/http.go:81-88 | Every original header key is forwarded. Values other than User-Agent are unchanged, and User-Agent is the configured one when it is set. |
| GoMaps.GoMap.Make | internal/http/http.go:82 | `make(map)`: a new map with no entries. |
| GoMaps.GoMap.Put | internal/http/http.go:84 | `m[k] = v`: the map afterwards is the old one with `k` bound to `v`, every other key unchanged. It is also the `Header.Set` of internal/http/http.go:87 and the `variables["input"] = input` of client.go:53. |
| Client.DefaultOptions | client.go:24 | The default endpoint and user-agent options put in front of the caller's. It has no contract of its own; Client.DefaultsWrite and Client.UserOptionsOverrideDefaults characterise it. |
| Client.DefaultsWrite | client.go:24 | On their own, the default options write the US endpoint and the default user agent and nothing else. |
| Client.PrefixOverridden | client.go:23-24 | Options placed in front that write only an endpoint and a user agent are overridden by later writers of those fields. Every other field is what the later options alone produce. |
| Client.UserOptionsOverrideDefaults | client.go:23-24 | With the defaults first, a caller's endpoint or user agent replaces the default one. Every other setting is what the caller's options alone produce. |
| Client.NoCredentialsNoClient | client.go:22-33 | With no token-source option and no WithoutAuthentication among the caller's options, NewClient's client is refused with "no authentication configured". |
| Client.NoCredentialsAfterPrefix | client.go:24 | The same refusal holds after any prefix of options that writes only an endpoint and a user agent. |
| Client.EndpointOnlyRefused | client.go:22-33 | A client configured with only an endpoint is refused with "no authentication configured". |
| Http.NoCredentialsRefused | internal/http/http.go:55-65 | Validated settings with no token source, no token error and authentication enabled make NewHttpClient fail with "no authentication configured". |
| Client.NewClient | client.go:22-33 | The method is NewHttpClient over the defaults followed by the caller's options. The client gets the endpoint and transport built, or the error is returned. |
| GoMaps.GoMap.Singleton | client.go:51 | A map literal with one entry: a new map holding exactly that key and value. |
| Client.Mutate | client.go:48-57 | A nil input leaves the variables untouched. With a nil map, a new map holding only "input" is sent. Otherwise "input" is set in the caller's map in place and every other key is kept. |

## Left out

- `loadSchema` (gen/gen.go:74-208): an HTTP request and JSON decoding. The schema is an input value.
- The text/template engine's parsing and output text.
  - Only what each template selects, in which order and with which helper results is modelled.
  - A render failure is an opaque error of a template run.
  - `quote` (`strconv.Quote`) is not modelled.
- gofmt (`format.Source`) is not modelled. Each template run carries gofmt's outcome as a value, and only the fallback text is modelled.
- File writes, logging and printing in `generateSchema` are not modelled. Write failures are values, and the written files are returned as a list.
- Gen.GenerateSchema: `os.WriteFile` truncates the file before writing. A failing write may therefore leave that file created, emptied or partly written. The model lists only the files whose writes succeeded and does not track that partial state.
- The order of `templates`: Go map iteration order is not fixed. Gen.GenerateSchema takes the runs in whatever order they arrive.
- The `ident` casing functions (`ParseLowerCamelCase`, `ParseScreamingSnakeCase`, `ToMixedCaps`) are foreign code and are function parameters. The lemmas hold for every casing function.
- Gen.TypeString: a reference with a missing `ofType` or `name`, or one of the wrong dynamic type, would panic in a Go type assertion. The datatype cannot express such a reference, so that panic is not modelled.
- Gen.TypeStringPartiality and Gen.TypeStringInjective assume leaf names are GraphQL names. Over arbitrary strings, a name `*x` under NON_NULL would defeat the prefix argument.
- Gen.SortByName: the model sorts by selection sort. `sort.Slice` may arrange equally named types differently. The contract only promises sorted and a permutation, which is all `sort.Slice` promises. Collections.SortedPermutationsEqual covers the case of unique names.
- Gen.EndSentence: the model treats the text as characters and lower-cases only an ASCII first letter. Go applies `strings.ToLower` to the first byte `s[0:1]` only. When the first character takes several bytes, that byte alone is invalid UTF-8, so `ToLower` replaces it with U+FFFD and the remaining bytes of the character stay after it. A character model cannot express this, so texts starting with a non-ASCII character are not modelled faithfully.
- internal/signer (key parsing, JWT signing, the clock) is not part of this model. Options.WithServiceAccount takes the signer's outcome as a `Result`, and Options.WithServiceAccountFile takes the file read as a `Result`.
- `oauth2.Transport` and `oauth2.StaticTokenSource` are opaque values, as are `*http.Client`, `http.DefaultTransport` and the base transport's own `RoundTrip`.
- Http.RoundTrip: the results of the base round trip are not modelled. Only the method, URL and header of the forwarded request are modelled. The header values are slices shared with the original request in Go; the model treats them as values.
- Typed nil values inside interfaces (a nil `*http.Client` stored in an option, say) are not distinguished from the other values of `Option`.
- The `graphql.Client` execution of `Query` and `Mutate`, and `NewHttpClient` in client.go (a one-line forward), are not modelled. Client.Mutate models the call up to the variables map it passes on.
- `internal.Version` is a parameter of the default user agent.
- scalar.go and the tests are not modelled.

# nativa persistence core, modelled in Dafny

This project models the query and DML compilation pipeline of the nativa
persistence engine, and proves properties of the model. One filter tree
(conditions, logical groups and negations) is normalised, with every named
parameter replaced by its value. It is then validated against the entity
metadata and rendered either to parameterised SQL (the JDBC dialect with
its Postgres specialisation) or to MongoDB filter documents and
statements. The model also covers:

- the JDBC and Mongo DML planners (insert, update by id or by criteria,
  delete, upsert);
- `UUID.fromString`, which the JDBC dialect applies to every operand of a
  uuid column;
- the user-type registry with its synthesized container types, and the
  binder registry;
- the type-reference parser of the YAML authoring format;
- the lexer that turns named `:param` placeholders in view SQL into JDBC
  `?` markers;
- the engine base class that picks the transaction for each call by its
  propagation rule, and sequences resolve, normalise, validate, plan,
  render and execute;
- the LRU cache with write and idle expiry used by the governance layer.

Java values are one `Value` datatype. Java maps are association lists
whose order is the one iteration order the model fixes; Java itself
promises none for the immutable maps of `Map.copyOf` (see "Left out").
A thrown exception is an `Err` carrying the exception kind and its
message. The collaborators the engine calls but does not own
are function-valued parameters:

- POJO accessors and mutators;
- user-type scalar codecs;
- binders;
- the clock;
- the backend's begin, commit, rollback and execute hooks.

Stateful parts are classes whose methods are proved against specification
functions:

- the render context that hands out placeholder names;
- the property-type cache;
- the user-type registry's synthesized cache;
- the engine's transaction trail;
- the cache.

All source paths below are relative to the repository root.

## Model

| member | source | states |
|---|---|---|
| TypeRefParser.TopCommaAt | nativa-core/src/main/java/io/intellixity/nativa/persistence/authoring/yaml/TypeRefParser.java:49-58 | the result is -1 or the index of a comma inside the text |
| TypeRefParser.FindTopComma | nativa-core/src/main/java/io/intellixity/nativa/persistence/authoring/yaml/TypeRefParser.java:49-58 | the depth-counting loop returns the first comma met at depth 0, or -1 |
| TypeRefParser.Inner | nativa-core/src/main/java/io/intellixity/nativa/persistence/authoring/yaml/TypeRefParser.java:15-16 | a text between a prefix and a closing character is found exactly when the text starts with the prefix and ends with the character, and the text is prefix + inner + close |
| TypeRefParser.BlankIsRejected | nativa-core/src/main/java/io/intellixity/nativa/persistence/authoring/yaml/TypeRefParser.java:12 | a blank type is refused with "type is blank" |
| TypeRefParser.ParseIgnoresPadding | nativa-core/src/main/java/io/intellixity/nativa/persistence/authoring/yaml/TypeRefParser.java:12-13 | padding around a non-blank type does not change the parse |
| TypeRefParser.ParseRef | nativa-core/src/main/java/io/intellixity/nativa/persistence/authoring/yaml/TypeRefParser.java:15-24 | ref(X) and value(X) both give a reference to X trimmed |
| TypeRefParser.ParseContainers | nativa-core/src/main/java/io/intellixity/nativa/persistence/authoring/yaml/TypeRefParser.java:26-34 | list<X>, set<X> and array<X> wrap the parse of X, and pass on its error |
| TypeRefParser.ParseMap | nativa-core/src/main/java/io/intellixity/nativa/persistence/authoring/yaml/TypeRefParser.java:35-42 | map<K,V> split at its depth-0 comma gives the map of the two parses; the key's error comes first, then the value's |
| TypeRefParser.MapWithoutTopComma | nativa-core/src/main/java/io/intellixity/nativa/persistence/authoring/yaml/TypeRefParser.java:36-38 | a map type with no comma at depth 0 is refused with "map<K,V> requires comma: " and the text |
| TypeRefParser.ScalarIds | nativa-core/src/main/java/io/intellixity/nativa/persistence/authoring/yaml/TypeRefParser.java:44-46 | any other text is a scalar id, lower-cased unless it holds a dot |
| TypeRefParser.ParseScalarForm | nativa-core/src/main/java/io/intellixity/nativa/persistence/authoring/yaml/TypeRefParser.java:45-46 | the scalar branch keeps a dotted class name as written and lower-cases the rest |
| TypeRefParser.MapCommaIsTop | nativa-core/src/main/java/io/intellixity/nativa/persistence/authoring/yaml/TypeRefParser.java:49-58 | in a map id built from two canonical ids, the depth-0 comma is the one between key and value |
| TypeRefParser.ParseTypeId | nativa-core/src/main/java/io/intellixity/nativa/persistence/authoring/yaml/TypeRefParser.java:11-47 | parsing the canonical id of any canonical type gives that type back (round trip) |
| UserTypes.ItemsOf | nativa-core/src/main/java/io/intellixity/nativa/persistence/authoring/DiscoveredUserTypeRegistry.java:134-139 | a container decoder iterates over the items of a collection of an accepted kind, and over the raw value alone otherwise |
| UserTypes.EncodeAll | nativa-core/src/main/java/io/intellixity/nativa/persistence/authoring/DiscoveredUserTypeRegistry.java:146-151 | encoding the elements keeps their number |
| UserTypes.DecodeItems | nativa-core/src/main/java/io/intellixity/nativa/persistence/authoring/DiscoveredUserTypeRegistry.java:140-142 | the loop decodes every element in order and stops at the first element that fails |
| UserTypes.DecodeValue | nativa-core/src/main/java/io/intellixity/nativa/persistence/authoring/DiscoveredUserTypeRegistry.java:132-143 | decoding a raw value agrees with the decoding specification for provided, list, set, array and map types |
| UserTypes.DecodeSet | nativa-core/src/main/java/io/intellixity/nativa/persistence/authoring/DiscoveredUserTypeRegistry.java:168-178 | a set is decoded element by element into a LinkedHashSet: the decoded elements without repeats, in first-seen order, or the first element's error |
| UserTypes.DecodeMap | nativa-core/src/main/java/io/intellixity/nativa/persistence/authoring/DiscoveredUserTypeRegistry.java:237-243 | a map is decoded entry by entry, key first, with later keys overwriting earlier ones in place |
| UserTypes.EncodeItems | nativa-core/src/main/java/io/intellixity/nativa/persistence/authoring/DiscoveredUserTypeRegistry.java:146-151 | the loop encodes every element in order |
| UserTypes.EncodeValue | nativa-core/src/main/java/io/intellixity/nativa/persistence/authoring/DiscoveredUserTypeRegistry.java:145-151 | encoding a value agrees with the encoding specification for every type |
| UserTypes.EncodeMap | nativa-core/src/main/java/io/intellixity/nativa/persistence/authoring/DiscoveredUserTypeRegistry.java:246-251 | a map is encoded entry by entry into a LinkedHashMap |
| UserTypes.DecodeAllFailureSticks | nativa-core/src/main/java/io/intellixity/nativa/persistence/authoring/DiscoveredUserTypeRegistry.java:141 | once an element fails to decode, the whole collection fails with that element's error |
| UserTypes.EntriesFailureSticks | nativa-core/src/main/java/io/intellixity/nativa/persistence/authoring/DiscoveredUserTypeRegistry.java:241 | once an entry fails to decode, the whole map fails with that entry's error |
| UserTypes.DecodeAllPointwise | nativa-core/src/main/java/io/intellixity/nativa/persistence/authoring/DiscoveredUserTypeRegistry.java:141 | a successful decoding has one decoded element per raw element, each the decoding of that element |
| UserTypes.NullStaysNull | nativa-core/src/main/java/io/intellixity/nativa/persistence/authoring/DiscoveredUserTypeRegistry.java:133 | null decodes to null and encodes to null for every container type |
| UserTypes.ListWrapsSingle | nativa-core/src/main/java/io/intellixity/nativa/persistence/authoring/DiscoveredUserTypeRegistry.java:137-139 | a list type decodes a lone non-collection value as a one-element list |
| UserTypes.ListDecodesEach | nativa-core/src/main/java/io/intellixity/nativa/persistence/authoring/DiscoveredUserTypeRegistry.java:135-142 | a list type decodes a list or array element-wise into a list of the same length |
| UserTypes.DedupFacts | nativa-core/src/main/java/io/intellixity/nativa/persistence/authoring/DiscoveredUserTypeRegistry.java:175-176 | LinkedHashSet insertion keeps no two equal elements, keeps every element that was added, and never grows beyond the input |
| UserTypes.SetDecodeIsSet | nativa-core/src/main/java/io/intellixity/nativa/persistence/authoring/DiscoveredUserTypeRegistry.java:168-178 | a decoded set holds no repeats and holds exactly the decoded elements |
| UserTypes.EncodeKeepsLength | nativa-core/src/main/java/io/intellixity/nativa/persistence/authoring/DiscoveredUserTypeRegistry.java:146-151 | list, set and array encodings keep the number of elements |
| UserTypes.DecodeEncode | nativa-core/src/main/java/io/intellixity/nativa/persistence/authoring/DiscoveredUserTypeRegistry.java:132-251 | when the provided codecs round-trip, decoding the encoding of a value gives the value back, for every list and array type over them |
| UserTypes.DecodeEncodeAll | nativa-core/src/main/java/io/intellixity/nativa/persistence/authoring/DiscoveredUserTypeRegistry.java:141 | the same round trip holds element-wise for a whole collection |
| UserTypeRegistry.NormalizeDialect | nativa-core/src/main/java/io/intellixity/nativa/persistence/authoring/DiscoveredUserTypeRegistry.java:110-114 | a provider's dialect id is its trimmed id, or the global marker "*" when it is null or blank; never empty |
| UserTypeRegistry.OffersOf | nativa-core/src/main/java/io/intellixity/nativa/persistence/authoring/DiscoveredUserTypeRegistry.java:38-41 | a provider offers at most its listed types, skipping null entries |
| UserTypeRegistry.Tier | nativa-core/src/main/java/io/intellixity/nativa/persistence/authoring/DiscoveredUserTypeRegistry.java:40-47 | every type a tier holds is stored under its own id |
| UserTypeRegistry.TierDomain | nativa-core/src/main/java/io/intellixity/nativa/persistence/authoring/DiscoveredUserTypeRegistry.java:40-47 | an id is in a tier exactly when some offer selected for that tier carries it |
| UserTypeRegistry.TierFirstWins | nativa-core/src/main/java/io/intellixity/nativa/persistence/authoring/DiscoveredUserTypeRegistry.java:43-46 | putIfAbsent: the first offer of an id in discovery order is the one kept |
| UserTypeRegistry.TierSnoc | nativa-core/src/main/java/io/intellixity/nativa/persistence/authoring/DiscoveredUserTypeRegistry.java:42-47 | one more offer adds its type only when it is selected and its id is not yet present |
| UserTypeRegistry.MapSplit | nativa-core/src/main/java/io/intellixity/nativa/persistence/authoring/DiscoveredUserTypeRegistry.java:95-100 | the corrected split of a map body cuts at its depth-0 comma into two non-empty ids |
| UserTypeRegistry.MapSplitAsWritten | nativa-core/src/main/java/io/intellixity/nativa/persistence/authoring/DiscoveredUserTypeRegistry.java:97-100 | the split as written cuts a map body at its first comma, with no comma in the key part |
| UserTypeRegistry.SplitMapBody | nativa-core/src/main/java/io/intellixity/nativa/persistence/authoring/DiscoveredUserTypeRegistry.java:95-100 | either split rebuilds the body as key + "," + value |
| UserTypeRegistry.CollectTiers | nativa-core/src/main/java/io/intellixity/nativa/persistence/authoring/DiscoveredUserTypeRegistry.java:30-53 | the constructor's loop over the providers builds exactly the dialect tier and the global tier |
| UserTypeRegistry.CollectProvider | nativa-core/src/main/java/io/intellixity/nativa/persistence/authoring/DiscoveredUserTypeRegistry.java:35-48 | one provider's types are added to the tiers as the tier specification says, null providers and null type lists skipped |
| UserTypeRegistry.Registry.constructor | nativa-core/src/main/java/io/intellixity/nativa/persistence/authoring/DiscoveredUserTypeRegistry.java:30-53 | a null or blank dialect id becomes ""; the tiers are those of the providers in discovery order; the synthesized cache starts empty and valid |
| UserTypeRegistry.Registry.Get | nativa-core/src/main/java/io/intellixity/nativa/persistence/authoring/DiscoveredUserTypeRegistry.java:56-70 | get returns the dialect type, else the global type, else the synthesized container, else the unknown-id error; the cache only grows, is unchanged on a hit, and holds a newly synthesized container under its id |
| UserTypeRegistry.Registry.TrySynthesize | nativa-core/src/main/java/io/intellixity/nativa/persistence/authoring/DiscoveredUserTypeRegistry.java:72-108 | trySynthesize builds list, set, array and map types over the resolved element ids, or nothing for any other id, and keeps the cache valid |
| UserTypeRegistry.Registry.ResolvedIdMatches | nativa-core/src/main/java/io/intellixity/nativa/persistence/authoring/DiscoveredUserTypeRegistry.java:56-70 | a resolved type always carries the id that was asked for |
| UserTypeRegistry.Registry.SynthesizedIdMatches | nativa-core/src/main/java/io/intellixity/nativa/persistence/authoring/DiscoveredUserTypeRegistry.java:72-108 | a synthesized container carries the id it was synthesized for |
| UserTypeRegistry.Registry.BlankIsUnknown | nativa-core/src/main/java/io/intellixity/nativa/persistence/authoring/DiscoveredUserTypeRegistry.java:57-59 | a blank id is refused with "Unknown userTypeId: " |
| UserTypeRegistry.Registry.DialectShadowsGlobal | nativa-core/src/main/java/io/intellixity/nativa/persistence/authoring/DiscoveredUserTypeRegistry.java:60-63 | a dialect type wins over a global type with the same id |
| UserTypeRegistry.Registry.ResolvesCanonical | nativa-core/src/main/java/io/intellixity/nativa/persistence/authoring/DiscoveredUserTypeRegistry.java:56-108 | every canonical type id whose leaves are registered resolves (with the as-written split, as long as no map key is itself a map) |
| UserTypeRegistry.Registry.ResolvesWrapped | nativa-core/src/main/java/io/intellixity/nativa/persistence/authoring/DiscoveredUserTypeRegistry.java:74-93 | list<X>, set<X> and array<X> resolve when X resolves |
| UserTypeRegistry.Registry.ResolvesMap | nativa-core/src/main/java/io/intellixity/nativa/persistence/authoring/DiscoveredUserTypeRegistry.java:95-106 | map<K,V> of canonical ids resolves when K and V resolve |
| UserTypeRegistry.Registry.SynthesizesMap | nativa-core/src/main/java/io/intellixity/nativa/persistence/authoring/DiscoveredUserTypeRegistry.java:95-106 | a map id whose body splits into two resolvable ids is synthesized as the map type over them |
| UserTypeRegistry.Registry.ResolvesSynthesized | nativa-core/src/main/java/io/intellixity/nativa/persistence/authoring/DiscoveredUserTypeRegistry.java:65-67 | a non-blank id that synthesizes is resolved |
| UserTypeRegistry.Registry.NestedMapKeyMisSplit | nativa-core/src/main/java/io/intellixity/nativa/persistence/authoring/DiscoveredUserTypeRegistry.java:97-104 | for map<map<a,K>,V> with every leaf registered, the registry as written fails while the top-level-comma split resolves |
| UserTypeRegistry.Registry.SplitKeyFails | nativa-core/src/main/java/io/intellixity/nativa/persistence/authoring/DiscoveredUserTypeRegistry.java:99-102 | when the key part of the as-written split does not resolve, the map id does not resolve either |
| UserTypeRegistry.Registry.MapPrefixUnknown | nativa-core/src/main/java/io/intellixity/nativa/persistence/authoring/DiscoveredUserTypeRegistry.java:95-107 | the key part "map<a" of a mis-split nested map resolves to nothing |
| UserTypeRegistry.NoMapIsFlat | nativa-core/src/main/java/io/intellixity/nativa/persistence/authoring/DiscoveredUserTypeRegistry.java:97 | a type with no map inside has no map key that is itself a map |
| UserTypeRegistry.NoCommaInId | nativa-core/src/main/java/io/intellixity/nativa/persistence/authoring/DiscoveredUserTypeRegistry.java:97 | the id of a type with no map inside holds no comma |
| UserTypeRegistry.AsWrittenSplitOfIds | nativa-core/src/main/java/io/intellixity/nativa/persistence/authoring/DiscoveredUserTypeRegistry.java:97-100 | with a map-free key, the as-written split gives back the key id and the value id |
| UserTypeRegistry.AsWrittenSplitsNestedKey | nativa-core/src/main/java/io/intellixity/nativa/persistence/authoring/DiscoveredUserTypeRegistry.java:97-100 | with a map key, the as-written split cuts inside the key: key part "map<a" |
| UserTypeRegistry.MapSplitOfIds | nativa-core/src/main/java/io/intellixity/nativa/persistence/authoring/DiscoveredUserTypeRegistry.java:95-100 | the corrected split gives back the key id and the value id of any canonical map |
| BinderRegistry.Unwrapped | nativa-engine-spi/src/main/java/io/intellixity/nativa/persistence/spi/bind/DiscoveredBinderRegistry.java:42-43 | a tier with no null binder is copied element for element |
| BinderRegistry.FirstAccepting | nativa-engine-spi/src/main/java/io/intellixity/nativa/persistence/spi/bind/DiscoveredBinderRegistry.java:58-72 | tryBind picks an accepting binder, and no binder before it in the tier accepts |
| BinderRegistry.Registry.constructor | nativa-engine-spi/src/main/java/io/intellixity/nativa/persistence/spi/bind/DiscoveredBinderRegistry.java:28-44 | the registry keeps the dialect id and the two ordered tiers it is given |
| BinderRegistry.Registry.Chosen | nativa-engine-spi/src/main/java/io/intellixity/nativa/persistence/spi/bind/DiscoveredBinderRegistry.java:50-51 | the chosen binder accepts the target, value and bind, and comes from the dialect tier or the global tier; none is chosen exactly when no binder of either tier accepts |
| BinderRegistry.Registry.Bind | nativa-engine-spi/src/main/java/io/intellixity/nativa/persistence/spi/bind/DiscoveredBinderRegistry.java:46-56 | bind refuses a null target, a null ctx and a null opKind with their messages; otherwise it applies the chosen binder once to the target, or fails with "No binder found" and leaves the target as it was |
| BinderRegistry.FirstIsFirst | nativa-engine-spi/src/main/java/io/intellixity/nativa/persistence/spi/bind/DiscoveredBinderRegistry.java:60-70 | the first accepting binder in registration order is the one chosen |
| BinderRegistry.Build | nativa-engine-spi/src/main/java/io/intellixity/nativa/persistence/spi/bind/DiscoveredBinderRegistry.java:28-44 | the constructor collects the dialect tier and the global tier in provider order; it fails with a NullPointerException exactly when a tier holds a null binder |
| BinderRegistry.DialectBeforeGlobal | nativa-engine-spi/src/main/java/io/intellixity/nativa/persistence/spi/bind/DiscoveredBinderRegistry.java:50-51 | an accepting dialect binder wins over every global binder |
| BinderRegistry.GlobalWhenNoDialect | nativa-engine-spi/src/main/java/io/intellixity/nativa/persistence/spi/bind/DiscoveredBinderRegistry.java:50-51 | without an accepting dialect binder, the first accepting global binder is chosen |
| BinderRegistry.NullSkipsValueClass | nativa-engine-spi/src/main/java/io/intellixity/nativa/persistence/spi/bind/DiscoveredBinderRegistry.java:62-66 | a null value skips the value-class test: only the target class and supports decide |
| PropertyTypeResolver.EntityNamed | nativa-core/src/main/java/io/intellixity/nativa/persistence/compile/PropertyTypeResolver.java:47 | a referenced entity is found exactly when the registry holds it; otherwise the registry's "Unknown authoring type: " error |
| PropertyTypeResolver.ResolveNoCache | nativa-core/src/main/java/io/intellixity/nativa/persistence/compile/PropertyTypeResolver.java:29-53 | no root or a blank path resolves to null; the only failure is the registry's IllegalArgumentException |
| PropertyTypeResolver.WalkFailsOnlyOnUnknown | nativa-core/src/main/java/io/intellixity/nativa/persistence/compile/PropertyTypeResolver.java:34-51 | walking a path fails only with an IllegalArgumentException |
| PropertyTypeResolver.ResolveLoop | nativa-core/src/main/java/io/intellixity/nativa/persistence/compile/PropertyTypeResolver.java:29-53 | the loop over the dot-separated segments gives the uncached resolution |
| PropertyTypeResolver.WalkHasChain | nativa-core/src/main/java/io/intellixity/nativa/persistence/compile/PropertyTypeResolver.java:34-51 | a path that resolves to a scalar id has a chain of referenced entities leading to it |
| PropertyTypeResolver.ChainResolves | nativa-core/src/main/java/io/intellixity/nativa/persistence/compile/PropertyTypeResolver.java:34-51 | a chain of ref fields ending in a scalar field resolves the path to that field's id |
| PropertyTypeResolver.PathResolves | nativa-core/src/main/java/io/intellixity/nativa/persistence/compile/PropertyTypeResolver.java:29-53 | a path resolves to id exactly when it is not blank and a chain of ref fields leads from the root to a scalar field with that id |
| PropertyTypeResolver.UnknownSegment | nativa-core/src/main/java/io/intellixity/nativa/persistence/compile/PropertyTypeResolver.java:36-37 | an unknown first segment resolves to null |
| PropertyTypeResolver.UnknownSegmentAlong | nativa-core/src/main/java/io/intellixity/nativa/persistence/compile/PropertyTypeResolver.java:36-37 | an unknown segment anywhere along the path resolves to null |
| PropertyTypeResolver.NonScalarLeaf | nativa-core/src/main/java/io/intellixity/nativa/persistence/compile/PropertyTypeResolver.java:41-43 | a last segment whose field is not a scalar resolves to null |
| PropertyTypeResolver.NonRefStep | nativa-core/src/main/java/io/intellixity/nativa/persistence/compile/PropertyTypeResolver.java:46-50 | a middle segment whose field is not a ref resolves to null |
| PropertyTypeResolver.UnknownEntityStep | nativa-core/src/main/java/io/intellixity/nativa/persistence/compile/PropertyTypeResolver.java:46-47 | a ref to an unknown entity fails with the registry's error |
| PropertyTypeResolver.Resolver.constructor | nativa-core/src/main/java/io/intellixity/nativa/persistence/compile/PropertyTypeResolver.java:18-20 | a new resolver has an empty cache |
| PropertyTypeResolver.Resolver.Resolve | nativa-core/src/main/java/io/intellixity/nativa/persistence/compile/PropertyTypeResolver.java:23-27 | a null root gives null; a cached key gives its cached id; otherwise the uncached resolution, cached only when it is a non-null id; for a key cached from the same root the answer is the uncached one |
| QueryNormalizer.EvalV | nativa-core/src/main/java/io/intellixity/nativa/persistence/compile/QueryNormalizer.java:68-108 | evaluating a list or collection gives a list of the same length, and a map a map with the same number of entries |
| QueryNormalizer.EvalItems | nativa-core/src/main/java/io/intellixity/nativa/persistence/compile/QueryNormalizer.java:77-81 | the element loop yields one value per element |
| QueryNormalizer.EvalEntries | nativa-core/src/main/java/io/intellixity/nativa/persistence/compile/QueryNormalizer.java:98-104 | the entry loop yields one entry per entry |
| QueryNormalizer.Eval | nativa-core/src/main/java/io/intellixity/nativa/persistence/compile/QueryNormalizer.java:68-108 | eval returns the evaluated value, and reports a change (a new object) exactly when the value held a parameter |
| QueryNormalizer.EvalList | nativa-core/src/main/java/io/intellixity/nativa/persistence/compile/QueryNormalizer.java:74-93 | the list and collection branch evaluates element-wise and reports a change exactly when an element held a parameter |
| QueryNormalizer.EvalMap | nativa-core/src/main/java/io/intellixity/nativa/persistence/compile/QueryNormalizer.java:94-106 | the map branch evaluates values in entry order, keys kept, and reports a change exactly when a value held a parameter |
| QueryNormalizer.EvalKeepsKeys | nativa-core/src/main/java/io/intellixity/nativa/persistence/compile/QueryNormalizer.java:98-104 | evaluating a map keeps every key in its position |
| QueryNormalizer.EvalFails | nativa-core/src/main/java/io/intellixity/nativa/persistence/compile/QueryNormalizer.java:70-73 | evaluation fails exactly when some parameter is missing from the query's params, with an IllegalArgumentException |
| QueryNormalizer.EvalItemsFail | nativa-core/src/main/java/io/intellixity/nativa/persistence/compile/QueryNormalizer.java:77-81 | a list fails exactly when one of its elements misses a parameter |
| QueryNormalizer.EvalEntriesFail | nativa-core/src/main/java/io/intellixity/nativa/persistence/compile/QueryNormalizer.java:98-104 | a map fails exactly when one of its values misses a parameter |
| QueryNormalizer.ItemsFailureSticks | nativa-core/src/main/java/io/intellixity/nativa/persistence/compile/QueryNormalizer.java:77-81 | the first failing element decides the list's error |
| QueryNormalizer.EntriesFailureSticks | nativa-core/src/main/java/io/intellixity/nativa/persistence/compile/QueryNormalizer.java:98-104 | the first failing value decides the map's error |
| QueryNormalizer.MissesIsHas | nativa-core/src/main/java/io/intellixity/nativa/persistence/compile/QueryNormalizer.java:70-73 | only a value that holds a parameter can miss one |
| QueryNormalizer.EvalKeepsParamFree | nativa-core/src/main/java/io/intellixity/nativa/persistence/compile/QueryNormalizer.java:69-107 | a value without parameters is returned unchanged |
| QueryNormalizer.EvalResolves | nativa-core/src/main/java/io/intellixity/nativa/persistence/compile/QueryNormalizer.java:68-108 | when every parameter is bound to a parameter-free value, the evaluated value holds no parameter |
| QueryNormalizer.EvalItemsResolve | nativa-core/src/main/java/io/intellixity/nativa/persistence/compile/QueryNormalizer.java:77-81 | the same holds element by element for a list |
| QueryNormalizer.EvalEntriesResolve | nativa-core/src/main/java/io/intellixity/nativa/persistence/compile/QueryNormalizer.java:98-104 | the same holds value by value for a map |
| QueryNormalizer.SetsBecomeLists | nativa-core/src/main/java/io/intellixity/nativa/persistence/compile/QueryNormalizer.java:84-92 | a set (or other collection) with a parameter comes back as an ArrayList |
| QueryNormalizer.Yield | nativa-core/src/main/java/io/intellixity/nativa/persistence/compile/QueryNormalizer.java:45 | an unchanged child is kept as it was |
| QueryNormalizer.Somes | nativa-core/src/main/java/io/intellixity/nativa/persistence/compile/QueryNormalizer.java:51 | removeIf(isNull) keeps at most the children there were, and leaves none exactly when every child is null |
| QueryNormalizer.Slots | nativa-core/src/main/java/io/intellixity/nativa/persistence/compile/QueryNormalizer.java:42-48 | the working copy of a group has one slot per child: the child itself when unchanged, its normalised form otherwise |
| QueryNormalizer.NormChildren | nativa-core/src/main/java/io/intellixity/nativa/persistence/compile/QueryNormalizer.java:42-48 | normalising the children gives one outcome per child |
| QueryNormalizer.ChildrenFailureSticks | nativa-core/src/main/java/io/intellixity/nativa/persistence/compile/QueryNormalizer.java:42-48 | the first child that fails decides the group's error |
| QueryNormalizer.NormalizeQuery | nativa-core/src/main/java/io/intellixity/nativa/persistence/compile/QueryNormalizer.java:21-24 | a query without a filter normalises to null |
| QueryNormalizer.Normalize | nativa-core/src/main/java/io/intellixity/nativa/persistence/compile/QueryNormalizer.java:21-24 | a null query or a query without a filter normalises to null |
| QueryNormalizer.NormalizeElement | nativa-core/src/main/java/io/intellixity/nativa/persistence/compile/QueryNormalizer.java:26-66 | the recursive method over conditions, NOT, groups and nested queries computes the normalisation specification |
| QueryNormalizer.NormalizeGroup | nativa-core/src/main/java/io/intellixity/nativa/persistence/compile/QueryNormalizer.java:39-55 | the group loop copies the child list on the first change, drops null children, collapses an empty group to null and a single child to itself |
| QueryNormalizer.GroupOutcome | nativa-core/src/main/java/io/intellixity/nativa/persistence/compile/QueryNormalizer.java:49-54 | a group whose children are all unchanged is returned as it was; otherwise the collapsed list of the non-null slots |
| QueryNormalizer.KeepPresent | nativa-core/src/main/java/io/intellixity/nativa/persistence/compile/QueryNormalizer.java:51 | the removeIf loop keeps the non-null slots in order |
| QueryNormalizer.NormalizeFilter | nativa-core/src/main/java/io/intellixity/nativa/persistence/compile/QueryNormalizer.java:21-24 | the method normalises the query's filter as the specification says |
| QueryNormalizer.PlainIsSame | nativa-core/src/main/java/io/intellixity/nativa/persistence/compile/QueryNormalizer.java:33-63 | an element without parameters or nested queries is returned unchanged |
| QueryNormalizer.PlainChildrenSame | nativa-core/src/main/java/io/intellixity/nativa/persistence/compile/QueryNormalizer.java:42-49 | every child of a plain group is unchanged |
| QueryNormalizer.NormalizedIsPlain | nativa-core/src/main/java/io/intellixity/nativa/persistence/compile/QueryNormalizer.java:26-66 | with every parameter bound to a parameter-free value, a normalised element holds no parameter |
| QueryNormalizer.GroupPlain | nativa-core/src/main/java/io/intellixity/nativa/persistence/compile/QueryNormalizer.java:49-54 | a collapsed group of plain children is plain |
| QueryNormalizer.ChildrenPlain | nativa-core/src/main/java/io/intellixity/nativa/persistence/compile/QueryNormalizer.java:42-48 | the children of a normalised group are each normalised and plain |
| QueryNormalizer.SomesOf | nativa-core/src/main/java/io/intellixity/nativa/persistence/compile/QueryNormalizer.java:51 | every kept child is one of the non-null slots |
| QueryNormalizer.ConditionKeepsShape | nativa-core/src/main/java/io/intellixity/nativa/persistence/compile/QueryNormalizer.java:57-63 | a normalised condition keeps its property, operator and negation |
| QueryNormalizer.ConditionMissingParam | nativa-core/src/main/java/io/intellixity/nativa/persistence/compile/QueryNormalizer.java:58-60 | a condition whose value or bounds miss a parameter fails |
| QueryNormalizer.GroupCollapse | nativa-core/src/main/java/io/intellixity/nativa/persistence/compile/QueryNormalizer.java:50-54 | a changed group normalises to null exactly when all its children became null, and to its one remaining child when only one is left |
| QueryNormalizer.CollapsedSlots | nativa-core/src/main/java/io/intellixity/nativa/persistence/compile/QueryNormalizer.java:51-53 | collapsing the slots gives null exactly when all are null, and the single survivor when one is left |
| QueryNormalizer.NestedInlined | nativa-core/src/main/java/io/intellixity/nativa/persistence/compile/QueryNormalizer.java:29-31 | a nested query is replaced by the normalisation of its own filter |
| QueryValidation.RequireScalarPath | nativa-engine-spi/src/main/java/io/intellixity/nativa/persistence/spi/exec/DefaultQueryValidationStrategy.java:79-92 | a blank path fails with "Blank propertyPath in <usage> for entity '<type>'"; a path that resolves to no scalar id fails with "Unknown scalar field path ..."; a resolving path passes |
| QueryValidation.ScalarPathIff | nativa-engine-spi/src/main/java/io/intellixity/nativa/persistence/spi/exec/DefaultQueryValidationStrategy.java:79-92 | a path passes exactly when it is not blank and a chain of ref fields leads from the entity to a scalar field |
| QueryValidation.Validate | nativa-engine-spi/src/main/java/io/intellixity/nativa/persistence/spi/exec/DefaultQueryValidationStrategy.java:24-38 | a null entity is refused with a NullPointerException naming "entity" |
| QueryValidation.ElementValidIff | nativa-engine-spi/src/main/java/io/intellixity/nativa/persistence/spi/exec/DefaultQueryValidationStrategy.java:55-77 | a filter passes exactly when it holds no unsupported element and every condition's property path passes |
| QueryValidation.SinglePath | nativa-engine-spi/src/main/java/io/intellixity/nativa/persistence/spi/exec/DefaultQueryValidationStrategy.java:71-73 | a single condition passes exactly when its path passes as a filter path |
| QueryValidation.ChildrenValidIff | nativa-engine-spi/src/main/java/io/intellixity/nativa/persistence/spi/exec/DefaultQueryValidationStrategy.java:66-69 | a group's children pass exactly when none is unsupported and all their paths pass |
| QueryValidation.AllPathsConcat | nativa-engine-spi/src/main/java/io/intellixity/nativa/persistence/spi/exec/DefaultQueryValidationStrategy.java:68 | the paths of two child lists pass exactly when each list's paths pass |
| QueryValidation.SortValidIff | nativa-engine-spi/src/main/java/io/intellixity/nativa/persistence/spi/exec/DefaultQueryValidationStrategy.java:40-46 | sort passes exactly when every sort field is a scalar path |
| QueryValidation.GroupByValidIff | nativa-engine-spi/src/main/java/io/intellixity/nativa/persistence/spi/exec/DefaultQueryValidationStrategy.java:48-53 | group-by passes exactly when every field is a scalar path |
| QueryValidation.ValidIff | nativa-engine-spi/src/main/java/io/intellixity/nativa/persistence/spi/exec/DefaultQueryValidationStrategy.java:24-38 | validation passes exactly when the filter, the sort fields and the group-by fields all pass |
| QueryValidation.EmptyPasses | nativa-engine-spi/src/main/java/io/intellixity/nativa/persistence/spi/exec/DefaultQueryValidationStrategy.java:34-37 | a query with no filter, no sort and no group-by passes |
| ViewMappings.DirectKeyWins | nativa-core/src/main/java/io/intellixity/nativa/persistence/authoring/ViewMappings.java:18-54 | a path that is itself a mapping key resolves to that key's spec: a string spec is the ref, and a non-map spec leaves the label as the path and the mode "structured" |
| ViewMappings.NestedLookup | nativa-core/src/main/java/io/intellixity/nativa/persistence/authoring/ViewMappings.java:56-67 | a dotted path that is not a key is looked up as its child inside the parent's "fields" map |
| ViewMappings.NestedWithoutFields | nativa-core/src/main/java/io/intellixity/nativa/persistence/authoring/ViewMappings.java:56-69 | a dotted path whose parent has no "fields" map has no spec |
| ViewMappings.Underscore | nativa-core/src/main/java/io/intellixity/nativa/persistence/authoring/ViewMappings.java:118-133 | the character loop computes the underscore spelling of a name |
| ViewMappings.UnderscoredNoUpper | nativa-core/src/main/java/io/intellixity/nativa/persistence/authoring/ViewMappings.java:118-133 | the underscore spelling has no upper-case letter and adds no dot |
| ViewMappings.UnderscoredIdentity | nativa-core/src/main/java/io/intellixity/nativa/persistence/authoring/ViewMappings.java:118-133 | a name without upper-case letters is left as it is |
| ViewMappings.UnderscoredIdempotent | nativa-core/src/main/java/io/intellixity/nativa/persistence/authoring/ViewMappings.java:118-133 | underscoring twice is the same as underscoring once |
| ViewMappings.UnderscoredCamelPair | nativa-core/src/main/java/io/intellixity/nativa/persistence/authoring/ViewMappings.java:100-104 | a lower-case word, one capital and a lower-case tail become word, "_", the lowered capital and the tail |
| ViewMappings.UnderscoreExamples | nativa-core/src/main/java/io/intellixity/nativa/persistence/authoring/ViewMappings.java:100-104 | customerName becomes customer_name and addressLine1 becomes address_line1 |
| ViewMappings.UnderscoreAll | nativa-core/src/main/java/io/intellixity/nativa/persistence/authoring/ViewMappings.java:111-114 | each segment is underscored on its own, one result per segment |
| ViewMappings.JoinUnderscored | nativa-core/src/main/java/io/intellixity/nativa/persistence/authoring/ViewMappings.java:109-115 | the segment loop joins the underscored segments with dots |
| ViewMappings.DefaultRef | nativa-core/src/main/java/io/intellixity/nativa/persistence/authoring/ViewMappings.java:105-116 | the default ref is computed by the blank, undotted and dotted cases |
| ViewMappings.DefaultRefSegments | nativa-core/src/main/java/io/intellixity/nativa/persistence/authoring/ViewMappings.java:105-116 | for a dotted path with non-empty segments, the segments of the default ref are the underscored segments of the path |
| ViewMappings.DefaultRefExamples | nativa-core/src/main/java/io/intellixity/nativa/persistence/authoring/ViewMappings.java:100-104 | customerName maps to customer_name and customer.addressLine1 to customer.address_line1 |
| ViewMappings.DefaultRefTwoSegments | nativa-core/src/main/java/io/intellixity/nativa/persistence/authoring/ViewMappings.java:105-116 | a two-segment path maps to its two underscored segments joined by a dot |
| ViewMappings.Flatten | nativa-core/src/main/java/io/intellixity/nativa/persistence/authoring/ViewMappings.java:72-98 | the flattening loop computes the label entries of a mapping under a prefix |
| ViewMappings.Labels | nativa-core/src/main/java/io/intellixity/nativa/persistence/authoring/ViewMappings.java:10-15 | the labels of a view are the flattened mapping from the empty prefix |
| ViewMappings.FlattenOutsidePrefix | nativa-core/src/main/java/io/intellixity/nativa/persistence/authoring/ViewMappings.java:72-98 | flattening under a prefix never writes a key outside that prefix |
| ViewMappings.FlattenAppend | nativa-core/src/main/java/io/intellixity/nativa/persistence/authoring/ViewMappings.java:73 | flattening two runs of entries is flattening the second after the first |
| ViewMappings.FlattenKeepsOtherKey | nativa-core/src/main/java/io/intellixity/nativa/persistence/authoring/ViewMappings.java:72-98 | flattening entries none of which has an undotted key k leaves k's label as it was |
| ViewMappings.LabelsAgreeWithLabel | nativa-core/src/main/java/io/intellixity/nativa/persistence/authoring/ViewMappings.java:10-25 | for a unique undotted key without nested fields, the labels map gives the same label as label() |
| MongoViewMapping.RefFromSpec | nativa-engine-mongo/src/main/java/io/intellixity/nativa/persistence/mongo/MongoViewMappingResolver.java:50-60 | a string spec is the ref; a map spec gives its "ref", else its "column"; anything else gives no ref |
| MongoViewMapping.NoViewNoRef | nativa-engine-mongo/src/main/java/io/intellixity/nativa/persistence/mongo/MongoViewMappingResolver.java:22-25 | a missing view or an empty mapping resolves nothing |
| MongoViewMapping.DirectKeyWins | nativa-engine-mongo/src/main/java/io/intellixity/nativa/persistence/mongo/MongoViewMappingResolver.java:27-30 | a path that is a mapping key with a ref resolves to it, and agrees with the SQL-side ref |
| MongoViewMapping.NestedKey | nativa-engine-mongo/src/main/java/io/intellixity/nativa/persistence/mongo/MongoViewMappingResolver.java:32-43 | a dotted path resolves through the parent's "fields" map, and agrees with the SQL-side ref |
| MongoViewMapping.NestedWithoutFields | nativa-engine-mongo/src/main/java/io/intellixity/nativa/persistence/mongo/MongoViewMappingResolver.java:32-47 | a dotted path whose parent has no "fields" map is not explicitly mapped |
| SqlParams.IdentEnd | nativa-engine-jdbc/src/main/java/io/intellixity/nativa/persistence/jdbc/ViewSqlParamCompiler.java:57-58 | the identifier scan stops at the first character that cannot continue an identifier, or at the end |
| SqlParams.Step | nativa-engine-jdbc/src/main/java/io/intellixity/nativa/persistence/jdbc/ViewSqlParamCompiler.java:35-67 | each lexing step consumes at least one character |
| SqlParams.NextToken | nativa-engine-jdbc/src/main/java/io/intellixity/nativa/persistence/jdbc/ViewSqlParamCompiler.java:36-66 | one step of the scanner: a quote toggles the quoted state (a doubled quote inside stays text), "::" is a cast, ":name" outside quotes is a parameter |
| SqlParams.ScanIdent | nativa-engine-jdbc/src/main/java/io/intellixity/nativa/persistence/jdbc/ViewSqlParamCompiler.java:57-58 | the identifier loop finds the end of the name |
| SqlParams.ToJdbcSql | nativa-engine-jdbc/src/main/java/io/intellixity/nativa/persistence/jdbc/ViewSqlParamCompiler.java:76-118 | a null SQL rewrites to ""; otherwise every parameter becomes "?" and everything else is copied |
| SqlParams.RewriteParams | nativa-engine-jdbc/src/main/java/io/intellixity/nativa/persistence/jdbc/ViewSqlParamCompiler.java:78-117 | the rewriting loop computes the rendered token stream |
| SqlParams.InferBind | nativa-engine-jdbc/src/main/java/io/intellixity/nativa/persistence/jdbc/ViewSqlParamCompiler.java:138-152 | the bind type is inferred from the value: string for null and strings, int, long, bool, uuid, instant, json otherwise |
| SqlParams.BindFor | nativa-engine-jdbc/src/main/java/io/intellixity/nativa/persistence/jdbc/ViewSqlParamCompiler.java:61-62 | a missing parameter fails with "Missing query param: " and the name; a Bind value is used as it is, any other value is inferred |
| SqlParams.BindsOf | nativa-engine-jdbc/src/main/java/io/intellixity/nativa/persistence/jdbc/ViewSqlParamCompiler.java:32-69 | one bind per parameter occurrence when none is missing |
| SqlParams.BindsFor | nativa-engine-jdbc/src/main/java/io/intellixity/nativa/persistence/jdbc/ViewSqlParamCompiler.java:28-70 | a null SQL binds nothing; otherwise the parameters named, in order of appearance, from the given (or empty) map |
| SqlParams.BindsOfText | nativa-engine-jdbc/src/main/java/io/intellixity/nativa/persistence/jdbc/ViewSqlParamCompiler.java:32-69 | the bind loop computes the binds of the named parameters |
| SqlParams.BindsFailureSticks | nativa-engine-jdbc/src/main/java/io/intellixity/nativa/persistence/jdbc/ViewSqlParamCompiler.java:61 | once a parameter is missing, the whole bind list fails with that error |
| SqlParams.Compile | nativa-engine-jdbc/src/main/java/io/intellixity/nativa/persistence/jdbc/ViewSqlParamCompiler.java:120-123 | compiling gives the rewritten SQL and the binds, or the first missing parameter's error |
| SqlParams.LexSpellsBack | nativa-engine-jdbc/src/main/java/io/intellixity/nativa/persistence/jdbc/ViewSqlParamCompiler.java:35-67 | the tokens spell back the scanned text exactly: the scanner loses nothing |
| SqlParams.NamesAreIdentifiers | nativa-engine-jdbc/src/main/java/io/intellixity/nativa/persistence/jdbc/ViewSqlParamCompiler.java:55-59 | every parameter name is an identifier: a letter or "_", then letters, digits or "_" |
| SqlParams.OneMarkPerBind | nativa-engine-jdbc/src/main/java/io/intellixity/nativa/persistence/jdbc/ViewSqlParamCompiler.java:120-123 | the compiled SQL has one "?" per bind beyond the ones already in the text |
| SqlParams.NoParamsUnchanged | nativa-engine-jdbc/src/main/java/io/intellixity/nativa/persistence/jdbc/ViewSqlParamCompiler.java:76-118 | a text without parameters is left unchanged |
| SqlParams.NoColonUnchanged | nativa-engine-jdbc/src/main/java/io/intellixity/nativa/persistence/jdbc/ViewSqlParamCompiler.java:48 | a text without ":" has no binds and is left unchanged |
| SqlParams.QuotedLiteralUnchanged | nativa-engine-jdbc/src/main/java/io/intellixity/nativa/persistence/jdbc/ViewSqlParamCompiler.java:38-46 | a ":name" inside a quoted literal is neither a parameter nor rewritten |
| SqlParams.MissingParamFails | nativa-engine-jdbc/src/main/java/io/intellixity/nativa/persistence/jdbc/ViewSqlParamCompiler.java:125-128 | binding fails exactly when some named parameter is missing |
| SqlParams.BindsInOrder | nativa-engine-jdbc/src/main/java/io/intellixity/nativa/persistence/jdbc/ViewSqlParamCompiler.java:32-63 | the k-th bind belongs to the k-th parameter occurrence |
| SqlParens.BalancedConcat | nativa-engine-jdbc/src/main/java/io/intellixity/nativa/persistence/jdbc/dialect/AbstractJdbcSqlDialect.java:540-545 | two balanced texts concatenate to a balanced text |
| SqlParens.BalancedWrap | nativa-engine-jdbc/src/main/java/io/intellixity/nativa/persistence/jdbc/dialect/AbstractJdbcSqlDialect.java:540-545 | a balanced text in parentheses is balanced and enclosed by one matching pair |
| SqlParens.EnclosedNoTopOr | nativa-engine-jdbc/src/main/java/io/intellixity/nativa/persistence/jdbc/dialect/AbstractJdbcSqlDialect.java:200-201 | a text enclosed by one matching pair has no top-level OR that an AND could split |
| SqlRender.NotWrap | nativa-engine-jdbc/src/main/java/io/intellixity/nativa/persistence/jdbc/dialect/AbstractJdbcSqlDialect.java:366-404 | a negated fragment is "NOT (" + fragment + ")", otherwise the fragment itself |
| SqlRender.Placeholder | nativa-engine-jdbc/src/main/java/io/intellixity/nativa/persistence/jdbc/dialect/AbstractJdbcSqlDialect.java:35-38 | a placeholder is ":b" followed by its number |
| SqlRender.PlaceholdersDistinct | nativa-engine-jdbc/src/main/java/io/intellixity/nativa/persistence/jdbc/dialect/AbstractJdbcSqlDialect.java:32-39 | different bind numbers give different placeholders |
| SqlRender.RenderCtx.constructor | nativa-engine-jdbc/src/main/java/io/intellixity/nativa/persistence/jdbc/dialect/AbstractJdbcSqlDialect.java:32-34 | a fresh context holds no bind |
| SqlRender.RenderCtx.Add | nativa-engine-jdbc/src/main/java/io/intellixity/nativa/persistence/jdbc/dialect/AbstractJdbcSqlDialect.java:35-38 | adding a bind appends it and returns the placeholder numbered by the binds before it plus one |
| JdbcPredicate.ResolveAgreesWithRef | nativa-engine-jdbc/src/main/java/io/intellixity/nativa/persistence/jdbc/dialect/AbstractJdbcSqlDialect.java:428-471 | where the SQL expression resolves and the key's spec names an expression, it is the same ref ViewMappings gives |
| JdbcPredicate.CoerceScalar | nativa-engine-jdbc/src/main/java/io/intellixity/nativa/persistence/jdbc/dialect/AbstractJdbcSqlDialect.java:406-413 | null, and any operand of a column whose type is not "uuid" (any case), pass unchanged, and so does a UUID; any other operand of a uuid column is parsed from its trimmed text by UUID.fromString, and a text that parse refuses fails with its IllegalArgument |
| JdbcPredicate.CoercedUuidCanonical | nativa-engine-jdbc/src/main/java/io/intellixity/nativa/persistence/jdbc/dialect/AbstractJdbcSqlDialect.java:406-413 | a text the uuid coercion accepts becomes the canonical lower-case UUID text, and that text coerces to the same UUID |
| JdbcPredicate.CanonicalTextCoerced | nativa-engine-jdbc/src/main/java/io/intellixity/nativa/persistence/jdbc/dialect/AbstractJdbcSqlDialect.java:406-413 | canonical UUID text, with or without surrounding whitespace, is accepted on a uuid column as the UUID it spells |
| JdbcPredicate.NonUuidTextFailsRender | nativa-engine-jdbc/src/main/java/io/intellixity/nativa/persistence/jdbc/dialect/AbstractJdbcSqlDialect.java:406-413 | a comparison (=, <>, <, <=, >, >=, LIKE) on a uuid column whose text operand UUID.fromString refuses fails the whole predicate with that IllegalArgument |
| JdbcPredicate.ArrayOpNullIff | nativa-engine-jdbc/src/main/java/io/intellixity/nativa/persistence/jdbc/dialect/AbstractJdbcSqlDialect.java:317-336 | an array operator fails exactly when its operand list holds a null, with a NullPointerException; otherwise it binds nothing for an empty list and the whole list once for a non-empty one |
| JdbcPredicate.NullElementFailsRender | nativa-jdbc-postgres/src/main/java/io/intellixity/nativa/persistence/jdbc/postgres/PostgresDialect.java:83-99 | an array condition on a mapped scalar path whose operand list holds a null fails the whole predicate with a NullPointerException |
| JdbcPredicate.NotAUuidFailsRender | nativa-engine-jdbc/src/main/java/io/intellixity/nativa/persistence/jdbc/dialect/AbstractJdbcSqlDialect.java:406-413 | "not-a-uuid", padded or not, compared with a uuid column fails the predicate with "Invalid UUID string: not-a-uuid" |
| JdbcPredicate.CondSqlRefused | nativa-engine-jdbc/src/main/java/io/intellixity/nativa/persistence/jdbc/dialect/AbstractJdbcSqlDialect.java:280-308 | a resolved condition on a column whose coercion refuses the operand renders as that refusal |
| JdbcPredicate.OpSqlRefused | nativa-engine-jdbc/src/main/java/io/intellixity/nativa/persistence/jdbc/dialect/AbstractJdbcSqlDialect.java:297-308 | each comparison operator fails with its operand's coercion error |
| UuidText.FromString | nativa-engine-jdbc/src/main/java/io/intellixity/nativa/persistence/jdbc/dialect/AbstractJdbcSqlDialect.java:410 | UUID.fromString: a text over 36 characters fails with "UUID string too large", one without exactly four dashes with "Invalid UUID string: " and the text; every refusal is an IllegalArgument |
| UuidText.ParseHexLong | nativa-engine-jdbc/src/main/java/io/intellixity/nativa/persistence/jdbc/dialect/AbstractJdbcSqlDialect.java:410 | a group read as by Long.parseLong with radix 16 is below 2^63 |
| UuidText.CanonicalRoundTrip | nativa-engine-jdbc/src/main/java/io/intellixity/nativa/persistence/jdbc/dialect/AbstractJdbcSqlDialect.java:410 | a canonical UUID text (8-4-4-4-12 lower-case digits) is accepted and comes back unchanged |
| UuidText.ParsedIsCanonical | nativa-engine-jdbc/src/main/java/io/intellixity/nativa/persistence/jdbc/dialect/AbstractJdbcSqlDialect.java:410 | whatever fromString accepts comes back as canonical text |
| UuidText.FromStringIdempotent | nativa-engine-jdbc/src/main/java/io/intellixity/nativa/persistence/jdbc/dialect/AbstractJdbcSqlDialect.java:410 | parsing the text of a parsed UUID gives the same UUID |
| UuidText.TrimCanonical | nativa-engine-jdbc/src/main/java/io/intellixity/nativa/persistence/jdbc/dialect/AbstractJdbcSqlDialect.java:410 | canonical UUID text has nothing to trim |
| UuidText.TwoDashesRefused | nativa-engine-jdbc/src/main/java/io/intellixity/nativa/persistence/jdbc/dialect/AbstractJdbcSqlDialect.java:410 | a text of three dash-free parts is refused as invalid |
| UuidText.NotAUuid | nativa-engine-jdbc/src/main/java/io/intellixity/nativa/persistence/jdbc/dialect/AbstractJdbcSqlDialect.java:410 | "not-a-uuid" is refused with "Invalid UUID string: not-a-uuid" |
| UuidText.CanonicalOfIsCanonical | nativa-engine-jdbc/src/main/java/io/intellixity/nativa/persistence/jdbc/dialect/AbstractJdbcSqlDialect.java:410 | the text of any five group values is canonical |
| UuidText.GroupValuesAll | nativa-engine-jdbc/src/main/java/io/intellixity/nativa/persistence/jdbc/dialect/AbstractJdbcSqlDialect.java:410 | groups that each read as a value read together as those values, in order |
| UuidText.HexOfValue | nativa-engine-jdbc/src/main/java/io/intellixity/nativa/persistence/jdbc/dialect/AbstractJdbcSqlDialect.java:410 | printing the value of a run of lower-case digits at its own width gives the run back |
| JdbcPredicate.Placeholders | nativa-engine-jdbc/src/main/java/io/intellixity/nativa/persistence/jdbc/dialect/AbstractJdbcSqlDialect.java:389-393 | the list placeholders are n consecutive ":bN" names from the next bind number |
| JdbcPredicate.CoerceAll | nativa-engine-jdbc/src/main/java/io/intellixity/nativa/persistence/jdbc/dialect/AbstractJdbcSqlDialect.java:390-393 | one bind per list value, its coerced value typed by the field's type; the list fails exactly when some value's coercion fails |
| JdbcPredicate.CoerceEach | nativa-engine-jdbc/src/main/java/io/intellixity/nativa/persistence/jdbc/dialect/AbstractJdbcSqlDialect.java:390-393 | for any coercion: one bind per value in order, and the list is accepted exactly when every value is |
| JdbcPredicate.CoerceEachFirstError | nativa-engine-jdbc/src/main/java/io/intellixity/nativa/persistence/jdbc/dialect/AbstractJdbcSqlDialect.java:390-393 | a refused list fails with the error of the first value the coercion refuses |
| JdbcPredicate.CoerceAllFirstError | nativa-engine-jdbc/src/main/java/io/intellixity/nativa/persistence/jdbc/dialect/AbstractJdbcSqlDialect.java:390-393 | a refused IN list fails with the coercion error of its first refused operand |
| JdbcPredicate.UnarySql | nativa-engine-jdbc/src/main/java/io/intellixity/nativa/persistence/jdbc/dialect/AbstractJdbcSqlDialect.java:371-376 | a comparison binds exactly its coerced value, and fails, with the coercion's error, exactly when the coercion refuses it |
| JdbcPredicate.UnaryNonNull | nativa-engine-jdbc/src/main/java/io/intellixity/nativa/persistence/jdbc/dialect/AbstractJdbcSqlDialect.java:398-404 | an ordering or LIKE comparison fails exactly on a null value, with "<op> requires non-null value" |
| JdbcPredicate.BetweenSql | nativa-engine-jdbc/src/main/java/io/intellixity/nativa/persistence/jdbc/dialect/AbstractJdbcSqlDialect.java:378-385 | a RANGE binds its coerced lower and upper bounds, in that order; a refused lower bound fails it first, then a refused upper bound |
| JdbcPredicate.ListSql | nativa-engine-jdbc/src/main/java/io/intellixity/nativa/persistence/jdbc/dialect/AbstractJdbcSqlDialect.java:387-396 | an empty IN list is FALSE (TRUE when negated) and binds nothing; otherwise one coerced bind per value, or the error of the first refused value |
| JdbcPredicate.ContainsOp | nativa-engine-jdbc/src/main/java/io/intellixity/nativa/persistence/jdbc/dialect/AbstractJdbcSqlDialect.java:317-326 | contains of an empty list is TRUE, FALSE when effectively negated; a non-empty list fails with a NullPointerException exactly when it holds a null, and otherwise binds the whole list once |
| JdbcPredicate.OverlapsOp | nativa-engine-jdbc/src/main/java/io/intellixity/nativa/persistence/jdbc/dialect/AbstractJdbcSqlDialect.java:327-336 | overlaps of an empty list is FALSE, TRUE when effectively negated; a non-empty list fails with a NullPointerException exactly when it holds a null, and otherwise binds the whole list once |
| JdbcPredicate.CondSql | nativa-engine-jdbc/src/main/java/io/intellixity/nativa/persistence/jdbc/dialect/AbstractJdbcSqlDialect.java:280-292 | a property without a SQL expression fails with the "Unknown field path" validation error |
| JdbcPredicate.Combine | nativa-engine-jdbc/src/main/java/io/intellixity/nativa/persistence/jdbc/dialect/AbstractJdbcSqlDialect.java:270-273 | no fragment renders as nothing, one as itself, several in one pair of parentheses |
| JdbcPredicate.KidsFailureSticks | nativa-engine-jdbc/src/main/java/io/intellixity/nativa/persistence/jdbc/dialect/AbstractJdbcSqlDialect.java:265-269 | a group fails with the error of its first failing child |
| JdbcPredicate.GroupDone | nativa-engine-jdbc/src/main/java/io/intellixity/nativa/persistence/jdbc/dialect/AbstractJdbcSqlDialect.java:260-274 | a group renders its children's fragments combined under its clause, flipped when negated, and all their binds |
| JdbcPredicate.WalkDual | nativa-engine-jdbc/src/main/java/io/intellixity/nativa/persistence/jdbc/dialect/AbstractJdbcSqlDialect.java:256-263 | a walk under negation equals the plain walk of the De Morgan dual, for any condition branch that honours negation |
| JdbcPredicate.CondSqlDual | nativa-engine-jdbc/src/main/java/io/intellixity/nativa/persistence/jdbc/dialect/AbstractJdbcSqlDialect.java:294 | a negated condition renders as the condition with its NOT flag flipped |
| JdbcPredicate.NegationIsDual | nativa-engine-jdbc/src/main/java/io/intellixity/nativa/persistence/jdbc/dialect/AbstractJdbcSqlDialect.java:252-341 | rendering a negated filter is rendering its De Morgan dual: same SQL, same binds, same errors |
| JdbcPredicate.OpBindCount | nativa-engine-jdbc/src/main/java/io/intellixity/nativa/persistence/jdbc/dialect/AbstractJdbcSqlDialect.java:297-340 | each operator binds as many values as the condition carries for it |
| JdbcPredicate.BindsCounted | nativa-engine-jdbc/src/main/java/io/intellixity/nativa/persistence/jdbc/dialect/AbstractJdbcSqlDialect.java:252-341 | a rendered filter binds exactly one value per bound operand of its conditions |
| JdbcPredicate.PredicateBinds | nativa-engine-jdbc/src/main/java/io/intellixity/nativa/persistence/jdbc/dialect/AbstractJdbcSqlDialect.java:245-250 | the predicate's binds number the filter's bound operands, and a blank predicate has none |
| JdbcPredicate.CombineNotBlank | nativa-engine-jdbc/src/main/java/io/intellixity/nativa/persistence/jdbc/dialect/AbstractJdbcSqlDialect.java:270-273 | combining non-blank fragments is never blank |
| JdbcPredicate.OpNotBlank | nativa-engine-jdbc/src/main/java/io/intellixity/nativa/persistence/jdbc/dialect/AbstractJdbcSqlDialect.java:297-340 | an operator over a non-blank expression never renders blank |
| JdbcPredicate.BlankBindsNothing | nativa-engine-jdbc/src/main/java/io/intellixity/nativa/persistence/jdbc/dialect/AbstractJdbcSqlDialect.java:252-341 | a filter that renders blank binds nothing |
| JdbcPredicate.Unary | nativa-engine-jdbc/src/main/java/io/intellixity/nativa/persistence/jdbc/dialect/AbstractJdbcSqlDialect.java:371-376 | the context gains the coerced bind and the SQL is the unary comparison; a refused operand fails before any bind is added |
| JdbcPredicate.Between | nativa-engine-jdbc/src/main/java/io/intellixity/nativa/persistence/jdbc/dialect/AbstractJdbcSqlDialect.java:378-385 | the context gains the two bounds and the SQL is the BETWEEN; a refused bound fails before any bind is added |
| JdbcPredicate.ListIn | nativa-engine-jdbc/src/main/java/io/intellixity/nativa/persistence/jdbc/dialect/AbstractJdbcSqlDialect.java:387-396 | the placeholder loop adds one coerced bind per value and renders the IN list, or fails with the first refused value's error |
| JdbcPredicate.BindEach | nativa-engine-jdbc/src/main/java/io/intellixity/nativa/persistence/jdbc/dialect/AbstractJdbcSqlDialect.java:389-393 | the loop yields the placeholders numbered on from the binds already present and appends every coerced bind in order, or stops with the first refused value's error |
| JdbcPredicate.NonNull | nativa-engine-jdbc/src/main/java/io/intellixity/nativa/persistence/jdbc/dialect/AbstractJdbcSqlDialect.java:398-404 | the null check happens before any bind is added |
| JdbcPredicate.Contains | nativa-jdbc-postgres/src/main/java/io/intellixity/nativa/persistence/jdbc/postgres/PostgresDialect.java:83-91 | the Postgres containment binds the whole list as one value, "@>"; a list holding a null fails and adds no bind |
| JdbcPredicate.Overlaps | nativa-jdbc-postgres/src/main/java/io/intellixity/nativa/persistence/jdbc/postgres/PostgresDialect.java:93-99 | the Postgres overlap binds the whole list as one value, "&&"; a list holding a null fails and adds no bind |
| JdbcPredicate.RenderOp | nativa-engine-jdbc/src/main/java/io/intellixity/nativa/persistence/jdbc/dialect/AbstractJdbcSqlDialect.java:297-340 | the operator switch renders as specified and adds its binds to the context |
| JdbcPredicate.RenderCondition | nativa-engine-jdbc/src/main/java/io/intellixity/nativa/persistence/jdbc/dialect/AbstractJdbcSqlDialect.java:276-340 | a condition renders as specified, failing before any bind on an unknown path |
| JdbcPredicate.RenderPredicateSql | nativa-engine-jdbc/src/main/java/io/intellixity/nativa/persistence/jdbc/dialect/AbstractJdbcSqlDialect.java:252-341 | the recursive renderer adds exactly the walk's binds to the context and returns its SQL, or its error |
| JdbcPredicate.JoinKids | nativa-engine-jdbc/src/main/java/io/intellixity/nativa/persistence/jdbc/dialect/AbstractJdbcSqlDialect.java:270-273 | the children's fragments are combined as specified |
| JdbcPredicate.RenderGroup | nativa-engine-jdbc/src/main/java/io/intellixity/nativa/persistence/jdbc/dialect/AbstractJdbcSqlDialect.java:260-274 | the group loop renders the children in order into the shared context |
| JdbcPredicate.RenderPredicate | nativa-engine-jdbc/src/main/java/io/intellixity/nativa/persistence/jdbc/dialect/AbstractJdbcSqlDialect.java:245-250 | a filter renders into a fresh context to the specified predicate, or nothing without a filter |
| JdbcSelect.Projection | nativa-engine-jdbc/src/main/java/io/intellixity/nativa/persistence/jdbc/dialect/AbstractJdbcSqlDialect.java:78-79 | the projection is "*" unless the view gives a non-blank string, which is then used as it is |
| JdbcSelect.SqlViewSelect | nativa-engine-jdbc/src/main/java/io/intellixity/nativa/persistence/jdbc/dialect/AbstractJdbcSqlDialect.java:73-94 | a view SQL that is not a non-blank string fails with "sqlView.sql must be a non-blank SQL string for JDBC view: " and the view id; a result is a query |
| JdbcSelect.NestedItems | nativa-engine-jdbc/src/main/java/io/intellixity/nativa/persistence/jdbc/dialect/AbstractJdbcSqlDialect.java:113-118 | each nested child becomes "column AS \"field.child\"", one item per child |
| JdbcSelect.BaseSelectOf | nativa-engine-jdbc/src/main/java/io/intellixity/nativa/persistence/jdbc/dialect/AbstractJdbcSqlDialect.java:72-132 | without view SQL the base statement fails exactly on a blank source, with "EntityAuthoring has no source for JDBC view: " and the view id, and binds nothing |
| JdbcSelect.ViewParamsKept | nativa-engine-jdbc/src/main/java/io/intellixity/nativa/persistence/jdbc/dialect/AbstractJdbcSqlDialect.java:84-91 | wrapping the view SQL in SELECT ... FROM (...) nativa_base, or prefixing SELECT projection, leaves its named parameters as they were |
| JdbcSelect.SqlViewBindsItsParams | nativa-engine-jdbc/src/main/java/io/intellixity/nativa/persistence/jdbc/dialect/AbstractJdbcSqlDialect.java:92 | the view statement binds the params its SQL names, in order, and fails exactly when one of them is missing |
| JdbcSelect.AddNested | nativa-engine-jdbc/src/main/java/io/intellixity/nativa/persistence/jdbc/dialect/AbstractJdbcSqlDialect.java:113-118 | the nested loop appends the nested items |
| JdbcSelect.SelectItems | nativa-engine-jdbc/src/main/java/io/intellixity/nativa/persistence/jdbc/dialect/AbstractJdbcSqlDialect.java:102-127 | the field loop computes the select items |
| JdbcSelect.BaseSelect | nativa-engine-jdbc/src/main/java/io/intellixity/nativa/persistence/jdbc/dialect/AbstractJdbcSqlDialect.java:72-132 | the base statement is computed as specified |
| JdbcSelect.ItemsCover | nativa-engine-jdbc/src/main/java/io/intellixity/nativa/persistence/jdbc/dialect/AbstractJdbcSqlDialect.java:102-127 | an item is selected exactly when some field contributes it |
| JdbcSelect.ScalarFieldSelected | nativa-engine-jdbc/src/main/java/io/intellixity/nativa/persistence/jdbc/dialect/AbstractJdbcSqlDialect.java:124-126 | a scalar field with a non-blank ref is selected as "ref AS \"field\"" |
| JdbcSelect.WhereJoined | nativa-engine-jdbc/src/main/java/io/intellixity/nativa/persistence/jdbc/dialect/AbstractJdbcSqlDialect.java:134-138 | a statement joined with " WHERE " is seen to have a WHERE |
| JdbcSelect.WhereKept | nativa-engine-jdbc/src/main/java/io/intellixity/nativa/persistence/jdbc/dialect/AbstractJdbcSqlDialect.java:134-138 | appending text never hides an existing WHERE |
| JdbcSelect.JoinFilter | nativa-engine-jdbc/src/main/java/io/intellixity/nativa/persistence/jdbc/dialect/AbstractJdbcSqlDialect.java:143-150 | a rendered predicate is joined with AND or WHERE, and its binds follow the base's |
| JdbcSelect.AppendFilter | nativa-engine-jdbc/src/main/java/io/intellixity/nativa/persistence/jdbc/dialect/AbstractJdbcSqlDialect.java:140-151 | the filter step is computed as specified |
| JdbcSelect.FilterBindsAppended | nativa-engine-jdbc/src/main/java/io/intellixity/nativa/persistence/jdbc/dialect/AbstractJdbcSqlDialect.java:140-151 | the filter keeps the base's binds as a prefix and adds one per filter value |
| JdbcSelect.FilterLeavesWhere | nativa-engine-jdbc/src/main/java/io/intellixity/nativa/persistence/jdbc/dialect/AbstractJdbcSqlDialect.java:140-151 | after the filter the statement has a WHERE exactly when the base had one or a non-blank predicate was added |
| JdbcSelect.SortOf | nativa-engine-jdbc/src/main/java/io/intellixity/nativa/persistence/jdbc/dialect/AbstractJdbcSqlDialect.java:153-163 | sorting never changes the binds, and with no resolvable sort field leaves the statement as it is |
| JdbcSelect.AppendSort | nativa-engine-jdbc/src/main/java/io/intellixity/nativa/persistence/jdbc/dialect/AbstractJdbcSqlDialect.java:153-163 | the sort loop computes the ORDER BY step |
| JdbcSelect.SortPartsResolved | nativa-engine-jdbc/src/main/java/io/intellixity/nativa/persistence/jdbc/dialect/AbstractJdbcSqlDialect.java:155-160 | when every sort field resolves, there is one "expr ASC/DESC" part per field, in order |
| JdbcSelect.SortPartsEmpty | nativa-engine-jdbc/src/main/java/io/intellixity/nativa/persistence/jdbc/dialect/AbstractJdbcSqlDialect.java:158-161 | there is no ORDER BY exactly when no sort field resolves |
| JdbcSelect.PageOf | nativa-jdbc-postgres/src/main/java/io/intellixity/nativa/persistence/jdbc/postgres/PostgresDialect.java:35-49 | paging never changes the binds, and no page leaves the statement as it is |
| JdbcSeek.KeyOf | nativa-engine-jdbc/src/main/java/io/intellixity/nativa/persistence/jdbc/dialect/AbstractJdbcSqlDialect.java:223-241 | an unresolved sort field fails with "Unknown sort field: ", a missing last-seen value with "SeekPage.after missing value for sort field: ", a value the column's coercion refuses with that error; a key carries the coerced non-null value bound with the field's type, and "<" exactly for DESC |
| JdbcSeek.KeysWith | nativa-engine-jdbc/src/main/java/io/intellixity/nativa/persistence/jdbc/dialect/AbstractJdbcSqlDialect.java:208-235 | one key per sort field when none fails |
| JdbcSeek.KeysFirstError | nativa-engine-jdbc/src/main/java/io/intellixity/nativa/persistence/jdbc/dialect/AbstractJdbcSqlDialect.java:208-235 | the keys fail exactly when some sort field fails, and then with the error of the first failing one |
| JdbcSeek.OrTerms | nativa-engine-jdbc/src/main/java/io/intellixity/nativa/persistence/jdbc/dialect/AbstractJdbcSqlDialect.java:207-235 | one OR term per sort field |
| JdbcSeek.SeekBindCount | nativa-engine-jdbc/src/main/java/io/intellixity/nativa/persistence/jdbc/dialect/AbstractJdbcSqlDialect.java:208-233 | the keyset predicate over n sort fields binds n(n+1)/2 values |
| JdbcSeek.SeekBindAt | nativa-engine-jdbc/src/main/java/io/intellixity/nativa/persistence/jdbc/dialect/AbstractJdbcSqlDialect.java:211-233 | bind j of term i is the last-seen value of sort field j |
| JdbcSeek.SeekMarksAlign | nativa-engine-jdbc/src/main/java/io/intellixity/nativa/persistence/jdbc/dialect/AbstractJdbcSqlDialect.java:239-243 | each placeholder of term i is numbered after the binds before it and names the bind of its sort field |
| JdbcSeek.EqTerms | nativa-engine-jdbc/src/main/java/io/intellixity/nativa/persistence/jdbc/dialect/AbstractJdbcSqlDialect.java:211-221 | the equality loop produces "expr = mark" for each earlier sort field and appends its bind |
| JdbcSeek.RenderTerm | nativa-engine-jdbc/src/main/java/io/intellixity/nativa/persistence/jdbc/dialect/AbstractJdbcSqlDialect.java:209-234 | one OR term is the earlier equalities and the comparison of field i, with its binds appended |
| JdbcSeek.SeekStep | nativa-engine-jdbc/src/main/java/io/intellixity/nativa/persistence/jdbc/dialect/AbstractJdbcSqlDialect.java:208-235 | one outer iteration fails with the key's error or extends the OR terms and the binds by one term |
| JdbcSeek.RenderSeekPredicate | nativa-engine-jdbc/src/main/java/io/intellixity/nativa/persistence/jdbc/dialect/AbstractJdbcSqlDialect.java:204-237 | the loop renders the keyset predicate "(a > v1) OR (a = v1 AND b > v2) ...", its binds following the caller's, or the first key error |
| JdbcSeek.SeekOf | nativa-engine-jdbc/src/main/java/io/intellixity/nativa/persistence/jdbc/dialect/AbstractJdbcSqlDialect.java:187-202 | no last-seen values leaves the statement as it is; values without sort fields fail with "SeekPage requires sort fields"; the base's binds stay a prefix |
| JdbcSeek.AppendSeekFilter | nativa-engine-jdbc/src/main/java/io/intellixity/nativa/persistence/jdbc/dialect/AbstractJdbcSqlDialect.java:187-202 | the keyset filter step is computed as specified |
| JdbcSeek.SeekTextNotBlank | nativa-engine-jdbc/src/main/java/io/intellixity/nativa/persistence/jdbc/dialect/AbstractJdbcSqlDialect.java:234-236 | a keyset predicate over at least one sort field is never blank |
| JdbcSeek.SeekOfBinds | nativa-engine-jdbc/src/main/java/io/intellixity/nativa/persistence/jdbc/dialect/AbstractJdbcSqlDialect.java:187-202 | a keyset step over n sort fields adds n(n+1)/2 binds |
| JdbcSeek.SeekOfFails | nativa-engine-jdbc/src/main/java/io/intellixity/nativa/persistence/jdbc/dialect/AbstractJdbcSqlDialect.java:187-237 | the keyset step fails exactly when some sort field fails, and then with the first failing field's error |
| JdbcSeek.SeekTextBalanced | nativa-engine-jdbc/src/main/java/io/intellixity/nativa/persistence/jdbc/dialect/AbstractJdbcSqlDialect.java:234-236 | the keyset predicate is balanced when every sort expression is |
| JdbcSeek.SeekOrEscapesWhere | nativa-engine-jdbc/src/main/java/io/intellixity/nativa/persistence/jdbc/dialect/AbstractJdbcSqlDialect.java:200-201 | as written, with two or more sort fields joined by AND to an existing WHERE, the predicate has an OR at its top level |
| JdbcSeek.SeekPredicateEnclosed | nativa-engine-jdbc/src/main/java/io/intellixity/nativa/persistence/jdbc/dialect/AbstractJdbcSqlDialect.java:200-201 | the predicate in parentheses is one group that an AND cannot split |
| JdbcMerge.FilteredOf | nativa-engine-jdbc/src/main/java/io/intellixity/nativa/persistence/jdbc/dialect/AbstractJdbcSqlDialect.java:45-46 | a base statement that cannot be built is the error of the filtered statement |
| JdbcMerge.MergeSelectOf | nativa-engine-jdbc/src/main/java/io/intellixity/nativa/persistence/jdbc/dialect/AbstractJdbcSqlDialect.java:41-52 | a filtered statement that cannot be built is the error of the merged SELECT |
| JdbcMerge.MergeCountOf | nativa-engine-jdbc/src/main/java/io/intellixity/nativa/persistence/jdbc/dialect/AbstractJdbcSqlDialect.java:54-61 | the COUNT fails exactly when the filtered statement does, with its error |
| JdbcMerge.Filtered | nativa-engine-jdbc/src/main/java/io/intellixity/nativa/persistence/jdbc/dialect/AbstractJdbcSqlDialect.java:45-46 | the base statement and the filter are combined as specified |
| JdbcMerge.MergeSelect | nativa-engine-jdbc/src/main/java/io/intellixity/nativa/persistence/jdbc/dialect/AbstractJdbcSqlDialect.java:41-52 | the SELECT is base, filter, keyset predicate, sort and page, in that order |
| JdbcMerge.MergeCount | nativa-engine-jdbc/src/main/java/io/intellixity/nativa/persistence/jdbc/dialect/AbstractJdbcSqlDialect.java:54-61 | the COUNT wraps the filtered statement as specified |
| JdbcMerge.CountBindsAsSelect | nativa-engine-jdbc/src/main/java/io/intellixity/nativa/persistence/jdbc/dialect/AbstractJdbcSqlDialect.java:41-61 | without a keyset page the SELECT and the COUNT fail together and carry the same binds in the same order |
| JdbcMerge.SeekSelectBinds | nativa-engine-jdbc/src/main/java/io/intellixity/nativa/persistence/jdbc/dialect/AbstractJdbcSqlDialect.java:186-237 | with a keyset page the SELECT's binds are the COUNT's followed by one per comparison, n(n+1)/2 for n sort fields |
| JdbcMerge.CountBinds | nativa-engine-jdbc/src/main/java/io/intellixity/nativa/persistence/jdbc/dialect/AbstractJdbcSqlDialect.java:54-61 | the COUNT binds the base statement's binds and then one per filter value |
| JdbcDml.StripMatchingParens | nativa-engine-jdbc/src/main/java/io/intellixity/nativa/persistence/jdbc/dialect/AbstractJdbcSqlDialect.java:540-545 | removing one pair of outer parentheses never lengthens the text |
| JdbcDml.StripKeepsBalance | nativa-engine-jdbc/src/main/java/io/intellixity/nativa/persistence/jdbc/dialect/AbstractJdbcSqlDialect.java:540-545 | removing a matching outer pair keeps a balanced predicate balanced |
| JdbcDml.StripUnwrapsGroup | nativa-engine-jdbc/src/main/java/io/intellixity/nativa/persistence/jdbc/dialect/AbstractJdbcSqlDialect.java:540-545 | a balanced predicate wrapped in one pair of parentheses is unwrapped exactly |
| JdbcDml.StripsFirstAndLast | nativa-engine-jdbc/src/main/java/io/intellixity/nativa/persistence/jdbc/dialect/AbstractJdbcSqlDialect.java:540-545 | as written, any text starting with "(" and ending with ")" loses both characters |
| JdbcDml.StripParensIfAnyBreaksList | nativa-engine-jdbc/src/main/java/io/intellixity/nativa/persistence/jdbc/dialect/AbstractJdbcSqlDialect.java:387-396 | the balanced predicate "(a) IN (:b1)" becomes unbalanced under the strip as written, and is left whole by the matching strip |
| JdbcDml.RenderInsert | nativa-engine-jdbc/src/main/java/io/intellixity/nativa/persistence/jdbc/dialect/AbstractJdbcSqlDialect.java:473-488 | the insert loop renders INSERT INTO with the quoted columns, one placeholder and one bind per column, and fails with "Insert has no columns" on an empty column list |
| JdbcDml.AppendWhere | nativa-engine-jdbc/src/main/java/io/intellixity/nativa/persistence/jdbc/dialect/AbstractJdbcSqlDialect.java:518-522 | a blank predicate adds nothing; otherwise " WHERE " and the stripped predicate are appended and its binds follow |
| JdbcDml.SetList | nativa-engine-jdbc/src/main/java/io/intellixity/nativa/persistence/jdbc/dialect/AbstractJdbcSqlDialect.java:510-516 | the SET loop produces one quoted "col = :bN" item and one bind per column |
| JdbcDml.RenderUpdate | nativa-engine-jdbc/src/main/java/io/intellixity/nativa/persistence/jdbc/dialect/AbstractJdbcSqlDialect.java:508-524 | the update statement is computed as specified, failing with "Update has no SET columns" on no sets |
| JdbcDml.RenderDelete | nativa-engine-jdbc/src/main/java/io/intellixity/nativa/persistence/jdbc/dialect/AbstractJdbcSqlDialect.java:526-535 | the delete statement is computed as specified |
| JdbcDml.UpdateBindCount | nativa-engine-jdbc/src/main/java/io/intellixity/nativa/persistence/jdbc/dialect/AbstractJdbcSqlDialect.java:508-524 | an update binds its set values first, then the filter's binds, and runs as an UPDATE |
| JdbcDml.DeleteBindCount | nativa-engine-jdbc/src/main/java/io/intellixity/nativa/persistence/jdbc/dialect/AbstractJdbcSqlDialect.java:526-535 | a delete binds exactly the filter's binds and runs as an UPDATE |
| JdbcDml.UpdateFailsWithPredicate | nativa-engine-jdbc/src/main/java/io/intellixity/nativa/persistence/jdbc/dialect/AbstractJdbcSqlDialect.java:518-528 | an update with sets, and a delete, fail exactly when the filter cannot be rendered |
| JdbcDml.ExcludedItems | nativa-jdbc-postgres/src/main/java/io/intellixity/nativa/persistence/jdbc/postgres/PostgresDialect.java:70-73 | each update column becomes "col = EXCLUDED.col", quoted |
| JdbcDml.UpsertText | nativa-jdbc-postgres/src/main/java/io/intellixity/nativa/persistence/jdbc/postgres/PostgresDialect.java:66-78 | the upsert text extends the insert text |
| JdbcDml.RenderUpsert | nativa-jdbc-postgres/src/main/java/io/intellixity/nativa/persistence/jdbc/postgres/PostgresDialect.java:58-81 | the Postgres upsert is computed as specified |
| JdbcDml.UpsertExtendsInsert | nativa-jdbc-postgres/src/main/java/io/intellixity/nativa/persistence/jdbc/postgres/PostgresDialect.java:58-81 | the upsert fails first without insert columns, then without conflict columns; otherwise it extends the plain insert, keeps its binds and returns a value exactly when returning columns are asked |
| JdbcDml.UpsertFallsBackToConflictColumns | nativa-jdbc-postgres/src/main/java/io/intellixity/nativa/persistence/jdbc/postgres/PostgresDialect.java:70 | with no update columns the conflict columns are overwritten from EXCLUDED |
| JdbcDml.RenderDml | nativa-engine-jdbc/src/main/java/io/intellixity/nativa/persistence/jdbc/dialect/AbstractJdbcSqlDialect.java:63-70 | each kind of DML statement goes to its own renderer |
| JdbcDml.InsertTextMarks | nativa-engine-jdbc/src/main/java/io/intellixity/nativa/persistence/jdbc/dialect/AbstractJdbcSqlDialect.java:478-485 | an insert text holds one ":" per column when table and column names hold none |
| JdbcDml.InsertMarksMatchBinds | nativa-engine-jdbc/src/main/java/io/intellixity/nativa/persistence/jdbc/dialect/AbstractJdbcSqlDialect.java:473-488 | a rendered insert has exactly as many parameter marks as binds |
| JdbcDml.StripParensIfAny | nativa-engine-jdbc/src/main/java/io/intellixity/nativa/persistence/jdbc/dialect/AbstractJdbcSqlDialect.java:540-545 | stripParensIfAny as written: the trimmed text, less its first and last character whenever they are "(" and ")"; never longer than the input |
| PostgresDialect.InsertExecKind | nativa-jdbc-postgres/src/main/java/io/intellixity/nativa/persistence/jdbc/postgres/PostgresDialect.java:23-27 | an insert returns one value exactly when it has returning columns, and is a plain update exactly when it has none |
| PostgresDialect.QuoteIdent | nativa-jdbc-postgres/src/main/java/io/intellixity/nativa/persistence/jdbc/postgres/PostgresDialect.java:29-33 | a quoted identifier starts and ends with a double quote |
| PostgresDialect.QuoteIdentRoundTrip | nativa-jdbc-postgres/src/main/java/io/intellixity/nativa/persistence/jdbc/postgres/PostgresDialect.java:29-33 | unquoting a quoted identifier (undoubling its inner quotes) gives the identifier back |
| PostgresDialect.QuoteIdentInjective | nativa-jdbc-postgres/src/main/java/io/intellixity/nativa/persistence/jdbc/postgres/PostgresDialect.java:29-33 | different identifiers never quote to the same text |
| PostgresDialect.QuoteAll | nativa-jdbc-postgres/src/main/java/io/intellixity/nativa/persistence/jdbc/postgres/PostgresDialect.java:54 | each identifier is quoted, one per identifier |
| PostgresDialect.ApplyOffsetPage | nativa-jdbc-postgres/src/main/java/io/intellixity/nativa/persistence/jdbc/postgres/PostgresDialect.java:35-43 | an offset page appends " LIMIT n OFFSET m" and keeps the binds |
| PostgresDialect.ApplySeekPage | nativa-jdbc-postgres/src/main/java/io/intellixity/nativa/persistence/jdbc/postgres/PostgresDialect.java:45-49 | a keyset page appends " LIMIT n" and keeps the binds and the execution kind |
| PostgresDialect.ApplyInsertReturning | nativa-jdbc-postgres/src/main/java/io/intellixity/nativa/persistence/jdbc/postgres/PostgresDialect.java:51-56 | no returning columns leaves the insert as it is; otherwise " RETURNING " and the quoted columns are appended |
| PostgresDialect.ArrayContainsSql | nativa-jdbc-postgres/src/main/java/io/intellixity/nativa/persistence/jdbc/postgres/PostgresDialect.java:83-91 | List.copyOf refuses a list holding a null with a NullPointerException, exactly then; otherwise containment binds the whole list as one value and renders "expr @> :bN", wrapped in NOT (...) when negated |
| PostgresDialect.ArrayOverlapsSql | nativa-jdbc-postgres/src/main/java/io/intellixity/nativa/persistence/jdbc/postgres/PostgresDialect.java:93-99 | List.copyOf refuses a list holding a null with a NullPointerException, exactly then; otherwise overlap binds the whole list as one value and renders "expr && :bN", wrapped in NOT (...) when negated |
| PostgresDialect.ArrayContains | nativa-jdbc-postgres/src/main/java/io/intellixity/nativa/persistence/jdbc/postgres/PostgresDialect.java:83-91 | a list holding a null fails before ctx.add, leaving the context unchanged; otherwise the context gains the list bind and the SQL is the containment |
| PostgresDialect.ArrayOverlaps | nativa-jdbc-postgres/src/main/java/io/intellixity/nativa/persistence/jdbc/postgres/PostgresDialect.java:93-99 | a list holding a null fails before ctx.add, leaving the context unchanged; otherwise the context gains the list bind and the SQL is the overlap |
| PostgresDialect.StripRoot | nativa-jdbc-postgres/src/main/java/io/intellixity/nativa/persistence/jdbc/postgres/PostgresDialect.java:126-129 | a trimmed path "$.t" loses its "$." root |
| PostgresDialect.StripPlain | nativa-jdbc-postgres/src/main/java/io/intellixity/nativa/persistence/jdbc/postgres/PostgresDialect.java:126-129 | a path without root or padding is kept |
| PostgresDialect.StripAllPadding | nativa-jdbc-postgres/src/main/java/io/intellixity/nativa/persistence/jdbc/postgres/PostgresDialect.java:126 | an all-whitespace path strips to nothing |
| PostgresDialect.PgTextArrayLiteral | nativa-jdbc-postgres/src/main/java/io/intellixity/nativa/persistence/jdbc/postgres/PostgresDialect.java:124-134 | as written: a blank path is '{}', any other is '{' + the segments joined by commas + '}', with no escaping |
| PostgresDialect.PgTextArrayLiteralExample | nativa-jdbc-postgres/src/main/java/io/intellixity/nativa/persistence/jdbc/postgres/PostgresDialect.java:125 | "$.a.b" and "a.b" both become '{a,b}' |
| PostgresDialect.PgTextArrayLiteralEmpty | nativa-jdbc-postgres/src/main/java/io/intellixity/nativa/persistence/jdbc/postgres/PostgresDialect.java:130 | "$", "$." and a blank path become '{}' |
| PostgresDialect.PgTextArrayLiteralEscaped | nativa-jdbc-postgres/src/main/java/io/intellixity/nativa/persistence/jdbc/postgres/PostgresDialect.java:124-134 | the escaped literal agrees with the one as written whenever the path has no single quote |
| PostgresDialect.EscapedLiteralShape | nativa-jdbc-postgres/src/main/java/io/intellixity/nativa/persistence/jdbc/postgres/PostgresDialect.java:124-134 | the escaped literal doubles every single quote of the body |
| PostgresDialect.EscapedLiteralBindsNothing | nativa-jdbc-postgres/src/main/java/io/intellixity/nativa/persistence/jdbc/postgres/PostgresDialect.java:101-106 | the escaped literal hides no parameter from, and adds none to, the text after it |
| PostgresDialect.EscapedLiteralUnchanged | nativa-jdbc-postgres/src/main/java/io/intellixity/nativa/persistence/jdbc/postgres/PostgresDialect.java:101-106 | the escaped literal passes the parameter rewriting unchanged |
| PostgresDialect.QuotedPathSwallowsPlaceholder | nativa-jdbc-postgres/src/main/java/io/intellixity/nativa/persistence/jdbc/postgres/PostgresDialect.java:101-106 | as written, the path x'y gives '{x'y}', which leaves a quote open and hides the following ":b1" from the parameter scanner |
| PostgresDialect.JsonPathExistsExample | nativa-jdbc-postgres/src/test/java/io/intellixity/nativa/persistence/jdbc/dialect/PostgresDialectTest.java:153-178 | a JSON path test on column meta with path "$.a.b" renders "meta #> '{a,b}' IS NOT NULL" |
| PostgresDialect.JsonPathExistsBindsNothing | nativa-jdbc-postgres/src/main/java/io/intellixity/nativa/persistence/jdbc/postgres/PostgresDialect.java:101-106 | when the path has no single quote and the column expression has no colon or quote, the rendered test (negated or not) followed by any SQL names exactly the parameters that SQL names, and reaches JDBC with the test text unchanged; the literal hides no placeholder |
| PostgresDialect.Nest | nativa-jdbc-postgres/src/main/java/io/intellixity/nativa/persistence/jdbc/postgres/PostgresDialect.java:144-149 | no segments gives the value; a null value under segments fails (Map.of refuses null) |
| PostgresDialect.JsonFragment | nativa-jdbc-postgres/src/main/java/io/intellixity/nativa/persistence/jdbc/postgres/PostgresDialect.java:136-150 | the loop re-wraps the value from the last segment to the first, as specified |
| PostgresDialect.NestFailureSticks | nativa-jdbc-postgres/src/main/java/io/intellixity/nativa/persistence/jdbc/postgres/PostgresDialect.java:146-148 | a failing inner wrap fails the whole fragment |
| PostgresDialect.NestThenDig | nativa-jdbc-postgres/src/main/java/io/intellixity/nativa/persistence/jdbc/postgres/PostgresDialect.java:144-149 | following the segments back into the fragment finds the value |
| PostgresDialect.JsonFragmentExample | nativa-jdbc-postgres/src/main/java/io/intellixity/nativa/persistence/jdbc/postgres/PostgresDialect.java:136-150 | path "$.a.b" with value 5 becomes {a: {b: 5}} |
| PostgresDialect.JsonValueEqSql | nativa-jdbc-postgres/src/main/java/io/intellixity/nativa/persistence/jdbc/postgres/PostgresDialect.java:108-122 | a non-map fails with "JSON_VALUE_EQ expects value object {path,value}", a missing path with "JSON_VALUE_EQ requires 'path'"; otherwise one json bind and "expr @> :bN" |
| PostgresDialect.JsonValueEq | nativa-jdbc-postgres/src/main/java/io/intellixity/nativa/persistence/jdbc/postgres/PostgresDialect.java:108-122 | the context gains the fragment bind only on success |
| DmlPlanning.BindFor | nativa-engine-jdbc/src/main/java/io/intellixity/nativa/persistence/jdbc/dml/JdbcDmlPlanner.java:213-223 | a bind carries the value itself, typed "json" without a field definition and by the field's canonical type id otherwise |
| DmlPlanning.NormalizeKeySet | nativa-engine-jdbc/src/main/java/io/intellixity/nativa/persistence/jdbc/dml/JdbcDmlPlanner.java:250-259 | the configured tenant-boundary keys are computed as the trimmed, non-empty keys |
| DmlPlanning.NormalizedKeysTrimmed | nativa-engine-jdbc/src/main/java/io/intellixity/nativa/persistence/jdbc/dml/JdbcDmlPlanner.java:250-259 | every normalised key is non-empty and already trimmed |
| DmlPlanning.GovernanceKeys | nativa-engine-jdbc/src/main/java/io/intellixity/nativa/persistence/jdbc/dml/JdbcDmlPlanner.java:261-278 | a null governanceKey attribute names no key, and every key named is non-empty |
| DmlPlanning.ParseGovernanceKeys | nativa-engine-jdbc/src/main/java/io/intellixity/nativa/persistence/jdbc/dml/JdbcDmlPlanner.java:261-278 | the attribute parser computes the governance keys of a string, a list or any other value |
| DmlPlanning.TrimmedItems | nativa-engine-jdbc/src/main/java/io/intellixity/nativa/persistence/jdbc/dml/JdbcDmlPlanner.java:267-275 | the item loop keeps the trimmed, non-empty text of each non-null item |
| DmlPlanning.IsTenantBoundaryField | nativa-engine-jdbc/src/main/java/io/intellixity/nativa/persistence/jdbc/dml/JdbcDmlPlanner.java:225-235 | a field is a tenant boundary exactly when one of its governance keys is configured; never with no keys configured or no governanceKey attribute |
| DmlPlanning.AnyTenantKey | nativa-engine-jdbc/src/main/java/io/intellixity/nativa/persistence/jdbc/dml/JdbcDmlPlanner.java:230-233 | the loop finds whether some parsed governance key is configured |
| DmlPlanning.TenantColumns | nativa-engine-jdbc/src/main/java/io/intellixity/nativa/persistence/jdbc/dml/JdbcDmlPlanner.java:237-248 | the field loop computes the tenant-boundary columns |
| DmlPlanning.NoTenantColumns | nativa-engine-jdbc/src/main/java/io/intellixity/nativa/persistence/jdbc/dml/JdbcDmlPlanner.java:237-238 | with no configured keys there is no tenant-boundary column |
| DmlPlanning.TenantColumnsIff | nativa-engine-jdbc/src/main/java/io/intellixity/nativa/persistence/jdbc/dml/JdbcDmlPlanner.java:237-248 | a column is a tenant-boundary column exactly when it is non-blank and is the ref of some tenant-boundary field |
| DmlPlanning.KeyColumns | nativa-engine-jdbc/src/main/java/io/intellixity/nativa/persistence/jdbc/dml/JdbcDmlPlanner.java:85-93 | the key-column loop computes the refs of the key fields, in field order |
| DmlPlanning.KeyColumnsOfKeyFields | nativa-engine-jdbc/src/main/java/io/intellixity/nativa/persistence/jdbc/dml/JdbcDmlPlanner.java:85-93 | there is one key column per key field, and each is that field's ref |
| DmlPlanning.RequireSingleKeyFieldOrId | nativa-engine-jdbc/src/main/java/io/intellixity/nativa/persistence/jdbc/dml/JdbcDmlPlanner.java:95-106 | two or more key fields fail with "Composite key not supported for updateById: " and the type; one key field is returned; none falls back to "id" |
| DmlPlanning.RefEntity | nativa-engine-jdbc/src/main/java/io/intellixity/nativa/persistence/jdbc/dml/JdbcDmlPlanner.java:204-211 | a reference field resolves to its registered entity; an unregistered id fails with "Unknown authoring type: " and the id; a field not declared or not a reference gives none |
| DmlPlanning.ChildColumns | nativa-engine-jdbc/src/main/java/io/intellixity/nativa/persistence/jdbc/dml/JdbcDmlPlanner.java:125-136 | the nested-fields loop computes the child columns of a reference field, stopping at the first accessor error |
| DmlPlanning.ChildStopped | nativa-engine-jdbc/src/main/java/io/intellixity/nativa/persistence/jdbc/dml/JdbcDmlPlanner.java:128-135 | once a child column fails, the whole nested extraction fails the same way |
| DmlPlanning.FieldColumns | nativa-engine-jdbc/src/main/java/io/intellixity/nativa/persistence/jdbc/dml/JdbcDmlPlanner.java:111-146 | one field contributes its nested columns, nothing, or one column bind; a nested reference to an unregistered entity fails with the registry's error |
| DmlPlanning.ExtractColumns | nativa-engine-jdbc/src/main/java/io/intellixity/nativa/persistence/jdbc/dml/JdbcDmlPlanner.java:108-189 | the field loop computes the insert columns (or, with update set, the update sets) of a POJO |
| DmlPlanning.ExtractAdvance | nativa-engine-jdbc/src/main/java/io/intellixity/nativa/persistence/jdbc/dml/JdbcDmlPlanner.java:111-146 | each further field adds nothing when skipped, and otherwise appends its columns or fails with its error |
| DmlPlanning.ExtractStopped | nativa-engine-jdbc/src/main/java/io/intellixity/nativa/persistence/jdbc/dml/JdbcDmlPlanner.java:108-189 | once a prefix of the fields fails, the whole extraction fails the same way |
| DmlPlanning.PlainIff | nativa-engine-jdbc/src/main/java/io/intellixity/nativa/persistence/jdbc/dml/JdbcDmlPlanner.java:156-157 | the fields that may be update sets are exactly those neither key nor tenant boundary |
| DmlPlanning.UpdateSetsArePlainColumns | nativa-engine-jdbc/src/main/java/io/intellixity/nativa/persistence/jdbc/dml/JdbcDmlPlanner.java:150-189 | the update sets are the insert columns of the non-key, non-tenant-boundary fields |
| DmlPlanning.NullOmittedUnlessMarked | nativa-engine-jdbc/src/main/java/io/intellixity/nativa/persistence/jdbc/dml/JdbcDmlPlanner.java:140-145 | a null scalar is left out unless the POJO's Nulls set names the field, and then it is bound as null under the field's type |
| DmlPlanning.NullPojoNoColumns | nativa-engine-jdbc/src/main/java/io/intellixity/nativa/persistence/jdbc/dml/JdbcDmlPlanner.java:191-192 | a null POJO contributes no column from any list of fields |
| DmlPlanning.UpsertUpdateColumns | nativa-engine-jdbc/src/main/java/io/intellixity/nativa/persistence/jdbc/dml/JdbcDmlPlanner.java:67-75 | the update-column loop keeps the insert columns that are neither conflict nor tenant-boundary columns, in order |
| DmlPlanning.KeptColumnsIff | nativa-engine-jdbc/src/main/java/io/intellixity/nativa/persistence/jdbc/dml/JdbcDmlPlanner.java:72-75 | a column is kept exactly when some insert column has it and it is not dropped |
| DmlPlanning.UpsertColumnsIff | nativa-engine-jdbc/src/main/java/io/intellixity/nativa/persistence/jdbc/dml/JdbcDmlPlanner.java:65-77 | an insert column is updated on conflict exactly when it is neither a key column nor a tenant-boundary column |
| JdbcDmlPlanner.NewPlanner | nativa-engine-jdbc/src/main/java/io/intellixity/nativa/persistence/jdbc/dml/JdbcDmlPlanner.java:28-32 | the planner keeps the registry and the accessors, and its tenant-boundary keys are the normalised (trimmed, non-empty) configured keys |
| JdbcDmlPlanner.RequireTable | nativa-engine-jdbc/src/main/java/io/intellixity/nativa/persistence/jdbc/dml/JdbcDmlPlanner.java:79-83 | the table is the entity's source when it is not blank; a blank source fails with "Entity authoring has no table source: " and the type |
| JdbcDmlPlanner.PlanInsert | nativa-engine-jdbc/src/main/java/io/intellixity/nativa/persistence/jdbc/dml/JdbcDmlPlanner.java:34-40 | a blank source or a failing extraction is the error; otherwise the insert has the table, the extracted columns and, when asked, the key columns as returning columns |
| JdbcDmlPlanner.PlanUpdateById | nativa-engine-jdbc/src/main/java/io/intellixity/nativa/persistence/jdbc/dml/JdbcDmlPlanner.java:42-50 | the errors come in source order (table, update sets, composite key, reading the id), and each error, including a failed read of the id, is passed up unchanged; on success the update has the update sets and the filter key = id, the key being the single key field or "id" |
| JdbcDmlPlanner.PlanUpdateByCriteria | nativa-engine-jdbc/src/main/java/io/intellixity/nativa/persistence/jdbc/dml/JdbcDmlPlanner.java:52-57 | the update has the table, the update sets and the caller's filter, or the first error |
| JdbcDmlPlanner.PlanDeleteByCriteria | nativa-engine-jdbc/src/main/java/io/intellixity/nativa/persistence/jdbc/dml/JdbcDmlPlanner.java:59-62 | the delete has the table and the caller's filter, and fails only on a blank source |
| JdbcDmlPlanner.PlanUpsert | nativa-engine-jdbc/src/main/java/io/intellixity/nativa/persistence/jdbc/dml/JdbcDmlPlanner.java:64-77 | the upsert holds the planned insert, the key columns as conflict columns, and as update columns the insert columns that are neither conflict nor tenant-boundary columns; a blank table and an error extracting the insert columns are passed up unchanged, as the insert plan returns them |
| JdbcDmlPlanner.NullPojoInsertsNothing | nativa-engine-jdbc/src/main/java/io/intellixity/nativa/persistence/jdbc/dml/JdbcDmlPlanner.java:191-192 | a null POJO gives no insert column and no update set |
| JdbcDmlPlanner.NoAccessorsRejected | nativa-engine-jdbc/src/main/java/io/intellixity/nativa/persistence/jdbc/dml/JdbcDmlPlanner.java:193-196 | reading a property of a non-null POJO with no accessor registry fails with "No PojoAccessorRegistry configured for JdbcDmlPlanner (type=...)" |
| MongoDmlPlanner.Create | nativa-engine-mongo/src/main/java/io/intellixity/nativa/persistence/mongo/MongoDmlPlanner.java:24-28 | a null registry fails with "authoring", then null accessors with "accessors"; otherwise the keys are normalised |
| MongoDmlPlanner.GetProperty | nativa-engine-mongo/src/main/java/io/intellixity/nativa/persistence/mongo/MongoDmlPlanner.java:84-89 | reading a property never fails: the accessors are always present |
| MongoDmlPlanner.RequireCollection | nativa-engine-mongo/src/main/java/io/intellixity/nativa/persistence/mongo/MongoDmlPlanner.java:78-82 | the collection is the entity's non-blank source; a blank source fails with "Entity authoring has no collection source: " and the type |
| MongoDmlPlanner.ExtractRefusesOnlyUnknownRefs | nativa-engine-mongo/src/main/java/io/intellixity/nativa/persistence/mongo/MongoDmlPlanner.java:114-194 | extraction fails only at a reference field whose entity the registry refuses, with that error, and succeeds when every reference resolves |
| MongoDmlPlanner.PlanInsert | nativa-engine-mongo/src/main/java/io/intellixity/nativa/persistence/mongo/MongoDmlPlanner.java:30-37 | the insert has the collection, the insert paths and, when asked, the key paths as returning columns; a blank source fails first, then an unresolvable nested reference |
| MongoDmlPlanner.PlanUpdateById | nativa-engine-mongo/src/main/java/io/intellixity/nativa/persistence/mongo/MongoDmlPlanner.java:39-47 | the collection check comes first, then the composite-key check, then the update sets; on success the update has the update sets and the filter key = id |
| MongoDmlPlanner.PlanUpdateByCriteria | nativa-engine-mongo/src/main/java/io/intellixity/nativa/persistence/mongo/MongoDmlPlanner.java:49-54 | the update has the collection, the update sets and the caller's filter; a blank source fails first, then an unresolvable nested reference |
| MongoDmlPlanner.PlanDeleteByCriteria | nativa-engine-mongo/src/main/java/io/intellixity/nativa/persistence/mongo/MongoDmlPlanner.java:56-59 | the delete has the collection and the caller's filter; only a blank source fails |
| MongoDmlPlanner.PlanUpsert | nativa-engine-mongo/src/main/java/io/intellixity/nativa/persistence/mongo/MongoDmlPlanner.java:61-74 | the upsert holds the planned insert, the key paths as conflict columns, and as update columns the insert paths that are neither key nor tenant-boundary paths; it fails as the insert plan does |
| MongoDmlPlanner.UnkeyedUpdatesById | nativa-engine-mongo/src/main/java/io/intellixity/nativa/persistence/mongo/MongoDmlPlanner.java:101-112 | an entity without key fields is updated by "id" |
| MongoRender.ResolvePath | nativa-engine-mongo/src/main/java/io/intellixity/nativa/persistence/mongo/MongoQueryRenderer.java:168-172 | the path is the explicit Mongo ref when one is mapped and non-blank, the property path otherwise |
| MongoRender.MappedPathUsed | nativa-engine-mongo/src/main/java/io/intellixity/nativa/persistence/mongo/MongoQueryRenderer.java:168-172 | a path mapped directly to a non-blank ref renders under that ref |
| MongoRender.UnmappedPathUnchanged | nativa-engine-mongo/src/main/java/io/intellixity/nativa/persistence/mongo/MongoQueryRenderer.java:168-172 | without a view or a mapping the property path is used as it is |
| MongoRender.JsonRootIsBase | nativa-engine-mongo/src/main/java/io/intellixity/nativa/persistence/mongo/MongoQueryRenderer.java:159-166 | an empty JSON path, "$", "." or "$." resolves to the base path |
| MongoRender.JsonSpelling | nativa-engine-mongo/src/main/java/io/intellixity/nativa/persistence/mongo/MongoQueryRenderer.java:159-166 | a trimmed JSON path whose stripped form is q resolves to base + "." + q |
| MongoRender.JsonSpellingsAgree | nativa-engine-mongo/src/main/java/io/intellixity/nativa/persistence/mongo/MongoQueryRenderer.java:159-166 | "q", "$.q", "$q" and ".q" resolve to the same document path |
| MongoRender.LikeRegexOf | nativa-engine-mongo/src/main/java/io/intellixity/nativa/persistence/mongo/MongoQueryRenderer.java:128-140 | the LIKE regex is anchored by "^" and "$" |
| MongoRender.TranslateRoundTrip | nativa-engine-mongo/src/main/java/io/intellixity/nativa/persistence/mongo/MongoQueryRenderer.java:132-137 | the pattern can be read back from its regex: "%" is ".*", "_" is ".", any other character is quoted |
| MongoRender.LikeRegexInjective | nativa-engine-mongo/src/main/java/io/intellixity/nativa/persistence/mongo/MongoQueryRenderer.java:128-140 | different LIKE patterns give different regexes |
| MongoRender.LikeRegex | nativa-engine-mongo/src/main/java/io/intellixity/nativa/persistence/mongo/MongoQueryRenderer.java:128-140 | the character loop builds the anchored regex |
| MongoRender.GetByPath | nativa-engine-mongo/src/main/java/io/intellixity/nativa/persistence/mongo/MongoQueryRenderer.java:208-216 | the path loop computes the value reached by following the segments, null when a step is not a map |
| MongoRender.NestReadBack | nativa-engine-mongo/src/main/java/io/intellixity/nativa/persistence/mongo/MongoQueryRenderer.java:208-216 | following the segments into a value nested under them finds the value |
| MongoRender.StoringBinderKeepsOperand | nativa-engine-mongo/src/main/java/io/intellixity/nativa/persistence/mongo/MongoQueryRenderer.java:174-187 | a binder that stores the operand under the path's segments makes the operand itself the bound value |
| MongoRender.BindValue | nativa-engine-mongo/src/main/java/io/intellixity/nativa/persistence/mongo/MongoQueryRenderer.java:174-187 | the operand is bound into a scratch document and read back at its path, or the binder's error |
| MongoRender.BoundListOf | nativa-engine-mongo/src/main/java/io/intellixity/nativa/persistence/mongo/MongoQueryRenderer.java:189-198 | a list binds exactly when every element binds, one bound value per element, in order |
| MongoRender.BoundList | nativa-engine-mongo/src/main/java/io/intellixity/nativa/persistence/mongo/MongoQueryRenderer.java:189-198 | the loop binds each element in order and fails with the first error |
| MongoRender.ToList | nativa-engine-mongo/src/main/java/io/intellixity/nativa/persistence/mongo/MongoQueryRenderer.java:200-206 | null is the empty list, a list or collection its items, anything else a one-element list |
| MongoRender.Positive | nativa-engine-mongo/src/main/java/io/intellixity/nativa/persistence/mongo/MongoQueryRenderer.java:78-87 | the negative array operators become positive with the NOT flag flipped; other operators are kept |
| MongoRender.UnknownScalarRejected | nativa-engine-mongo/src/main/java/io/intellixity/nativa/persistence/mongo/MongoQueryRenderer.java:73-76 | a condition whose path has no scalar type, or with no resolver, fails with "Unknown scalar field path" |
| MongoRender.NegatedConditionIsNor | nativa-engine-mongo/src/main/java/io/intellixity/nativa/persistence/mongo/MongoQueryRenderer.java:115 | a negated condition is { $nor: [ the positive condition ] } |
| MongoRender.NegativeArrayOpsFlip | nativa-engine-mongo/src/main/java/io/intellixity/nativa/persistence/mongo/MongoQueryRenderer.java:80-87 | ARRAY_NOT_CONTAINS and ARRAY_NOT_OVERLAPS render as their positive operators with NOT flipped |
| MongoRender.NullComparisons | nativa-engine-mongo/src/main/java/io/intellixity/nativa/persistence/mongo/MongoQueryRenderer.java:90-95 | EQ null is { path: null } and NE null is { path: { $ne: null } } |
| MongoRender.LikeIsRegex | nativa-engine-mongo/src/main/java/io/intellixity/nativa/persistence/mongo/MongoQueryRenderer.java:105 | LIKE renders as { path: { $regex: anchored regex } } and refuses a null operand with "LIKE requires non-null value" |
| MongoRender.ComparisonRefusesNull | nativa-engine-mongo/src/main/java/io/intellixity/nativa/persistence/mongo/MongoQueryRenderer.java:96-99 | GT, GE, LT and LE refuse a null operand, naming the operator |
| MongoRender.CondDocDual | nativa-engine-mongo/src/main/java/io/intellixity/nativa/persistence/mongo/MongoQueryRenderer.java:78 | a pending negation on a condition is its own NOT flag flipped |
| MongoRender.Docs | nativa-engine-mongo/src/main/java/io/intellixity/nativa/persistence/mongo/MongoQueryRenderer.java:64 | each part document becomes one element of the combined list |
| MongoRender.Parts | nativa-engine-mongo/src/main/java/io/intellixity/nativa/persistence/mongo/MongoQueryRenderer.java:57-61 | only non-empty child documents are kept, at most one per child |
| MongoRender.EmptyGroupIsEmpty | nativa-engine-mongo/src/main/java/io/intellixity/nativa/persistence/mongo/MongoQueryRenderer.java:62 | a group with no rendered part is the empty document |
| MongoRender.SingleChildUnwrapped | nativa-engine-mongo/src/main/java/io/intellixity/nativa/persistence/mongo/MongoQueryRenderer.java:63 | a group with one child renders as that child |
| MongoRender.TwoChildrenCombine | nativa-engine-mongo/src/main/java/io/intellixity/nativa/persistence/mongo/MongoQueryRenderer.java:52-65 | two non-empty children combine under $and or $or, the clause swapped under negation |
| MongoRender.WalkDual | nativa-engine-mongo/src/main/java/io/intellixity/nativa/persistence/mongo/MongoQueryRenderer.java:48-65 | a walk under negation equals the plain walk of the De Morgan dual, for any condition renderer that honours negation |
| MongoRender.NegationIsDual | nativa-engine-mongo/src/main/java/io/intellixity/nativa/persistence/mongo/MongoQueryRenderer.java:38-116 | rendering a negated filter is rendering its De Morgan dual: the same document or the same error |
| MongoRender.RenderPositive | nativa-engine-mongo/src/main/java/io/intellixity/nativa/persistence/mongo/MongoQueryRenderer.java:89-113 | the operator switch builds the positive document as specified |
| MongoRender.RenderEquality | nativa-engine-mongo/src/main/java/io/intellixity/nativa/persistence/mongo/MongoQueryRenderer.java:90-95 | EQ and NE render as specified, null handled without binding |
| MongoRender.RenderLike | nativa-engine-mongo/src/main/java/io/intellixity/nativa/persistence/mongo/MongoQueryRenderer.java:105 | LIKE renders as specified |
| MongoRender.RenderCompare | nativa-engine-mongo/src/main/java/io/intellixity/nativa/persistence/mongo/MongoQueryRenderer.java:96-99 | the ordered comparisons render as specified |
| MongoRender.RenderList | nativa-engine-mongo/src/main/java/io/intellixity/nativa/persistence/mongo/MongoQueryRenderer.java:100-109 | the list operators render as specified |
| MongoRender.RenderRange | nativa-engine-mongo/src/main/java/io/intellixity/nativa/persistence/mongo/MongoQueryRenderer.java:102-104 | RANGE renders { $gte, $lte } and refuses a missing bound, as specified |
| MongoRender.RenderJsonValueEq | nativa-engine-mongo/src/main/java/io/intellixity/nativa/persistence/mongo/MongoQueryRenderer.java:142-157 | JSON_VALUE_EQ renders as specified |
| MongoRender.RenderCondition | nativa-engine-mongo/src/main/java/io/intellixity/nativa/persistence/mongo/MongoQueryRenderer.java:67-116 | a condition renders as specified |
| MongoRender.GroupFromParts | nativa-engine-mongo/src/main/java/io/intellixity/nativa/persistence/mongo/MongoQueryRenderer.java:52-65 | a group fails with its parts' error or renders from its parts |
| MongoRender.PartsFailureSticks | nativa-engine-mongo/src/main/java/io/intellixity/nativa/persistence/mongo/MongoQueryRenderer.java:57-61 | a failing child fails the whole group with its error |
| MongoRender.Render | nativa-engine-mongo/src/main/java/io/intellixity/nativa/persistence/mongo/MongoQueryRenderer.java:38-116 | the recursive renderer computes the walk |
| MongoRender.RenderGroup | nativa-engine-mongo/src/main/java/io/intellixity/nativa/persistence/mongo/MongoQueryRenderer.java:52-65 | the group loop computes the group's document |
| MongoRender.ToBson | nativa-engine-mongo/src/main/java/io/intellixity/nativa/persistence/mongo/MongoQueryRenderer.java:27-36 | no filter is the empty document; otherwise the filter's document |
| MongoDialect.ToDoc | nativa-engine-mongo/src/main/java/io/intellixity/nativa/persistence/mongo/MongoDialect.java:151-157 | a value becomes a document exactly when it is null (the empty document) or a map |
| MongoDialect.ToDocs | nativa-engine-mongo/src/main/java/io/intellixity/nativa/persistence/mongo/MongoDialect.java:122-124 | a list becomes documents exactly when every element does, one per element, in order |
| MongoDialect.AddStages | nativa-engine-mongo/src/main/java/io/intellixity/nativa/persistence/mongo/MongoDialect.java:120-128 | the stages of a value are appended after those already collected, or the conversion fails |
| MongoDialect.ScanOperatorKey | nativa-engine-mongo/src/main/java/io/intellixity/nativa/persistence/mongo/MongoDialect.java:103-107 | the key loop finds whether some key starts with "$" |
| MongoDialect.BaseShape | nativa-engine-mongo/src/main/java/io/intellixity/nativa/persistence/mongo/MongoDialect.java:92-118 | exactly one of base filter and pipeline is set; the pipeline is chosen exactly in pipeline mode; only a pipeline can fail |
| MongoDialect.NoSqlViewEmptyFilter | nativa-engine-mongo/src/main/java/io/intellixity/nativa/persistence/mongo/MongoDialect.java:93-98 | without a native view, or with neither sql nor projection, the base is the empty filter |
| MongoDialect.PipelineStagesInOrder | nativa-engine-mongo/src/main/java/io/intellixity/nativa/persistence/mongo/MongoDialect.java:109-113 | a pipeline is the sql stages followed by the projection stages |
| MongoDialect.Base | nativa-engine-mongo/src/main/java/io/intellixity/nativa/persistence/mongo/MongoDialect.java:92-118 | the base is computed as specified |
| MongoDialect.SortEntriesDirections | nativa-engine-mongo/src/main/java/io/intellixity/nativa/persistence/mongo/MongoDialect.java:140-149 | each sort path ends with the direction (1 or -1) of the last sort field that maps to it |
| MongoDialect.UnmappedSortField | nativa-engine-mongo/src/main/java/io/intellixity/nativa/persistence/mongo/MongoDialect.java:144-146 | an unmapped sort field sorts under its own name |
| MongoDialect.SortDoc | nativa-engine-mongo/src/main/java/io/intellixity/nativa/persistence/mongo/MongoDialect.java:140-149 | the sort loop computes the sort document, none for no sort fields |
| MongoDialect.Skip | nativa-engine-mongo/src/main/java/io/intellixity/nativa/persistence/mongo/MongoDialect.java:130-133 | only an offset page skips, by its offset |
| MongoDialect.Limit | nativa-engine-mongo/src/main/java/io/intellixity/nativa/persistence/mongo/MongoDialect.java:135-138 | any page limits, by its limit |
| MongoDialect.MergeSelect | nativa-engine-mongo/src/main/java/io/intellixity/nativa/persistence/mongo/MongoDialect.java:21-37 | the select statement is computed as specified |
| MongoDialect.MergeCount | nativa-engine-mongo/src/main/java/io/intellixity/nativa/persistence/mongo/MongoDialect.java:39-52 | the count statement is computed as specified |
| MongoDialect.SelectShape | nativa-engine-mongo/src/main/java/io/intellixity/nativa/persistence/mongo/MongoDialect.java:21-37 | a select aggregates exactly in pipeline mode and finds otherwise, carrying the collection, the filter, the sort document, skip and limit |
| MongoDialect.CountShape | nativa-engine-mongo/src/main/java/io/intellixity/nativa/persistence/mongo/MongoDialect.java:39-52 | a count never sorts or pages; it aggregates exactly in pipeline mode and counts otherwise |
| MongoDialect.CountMatchesSelect | nativa-engine-mongo/src/main/java/io/intellixity/nativa/persistence/mongo/MongoDialect.java:21-52 | a count and a select over the same view fail together and read the same base |
| MongoDialect.MissingCollectionRefused | nativa-engine-mongo/src/main/java/io/intellixity/nativa/persistence/mongo/MongoDialect.java:84-88 | a blank source fails select and count with "Entity authoring has no collection source: " and the type |
| MongoDialect.RenderDml | nativa-engine-mongo/src/main/java/io/intellixity/nativa/persistence/mongo/MongoDialect.java:54-80 | a DML statement carries the DML unchanged, the collection and its operation; only an upsert sets the upsert flag |
| MongoDialect.DmlKinds | nativa-engine-mongo/src/main/java/io/intellixity/nativa/persistence/mongo/MongoDialect.java:58-77 | inserts insert one, updates and deletes touch every match, an upsert updates one |
| DataEngine.BeginsIff | nativa-engine-spi/src/main/java/io/intellixity/nativa/persistence/spi/exec/AbstractDataEngine.java:165-183 | a new transaction begins exactly under REQUIRES_NEW, or under REQUIRED or NESTED when none is bound |
| DataEngine.ReusesIff | nativa-engine-spi/src/main/java/io/intellixity/nativa/persistence/spi/exec/AbstractDataEngine.java:165-183 | a bound transaction is joined exactly under REQUIRED, NESTED, MANDATORY and SUPPORTS; SUPPORTS always runs inline; NESTED behaves as REQUIRED |
| DataEngine.RefusesIff | nativa-engine-spi/src/main/java/io/intellixity/nativa/persistence/spi/exec/AbstractDataEngine.java:165-183 | the call is refused, with an illegal-state error, exactly for MANDATORY without and NEVER with a bound transaction |
| DataEngine.ReplaceAbsent | nativa-engine-spi/src/main/java/io/intellixity/nativa/persistence/spi/exec/AbstractDataEngine.java:227-231 | replacing a placeholder that does not occur leaves the text unchanged |
| DataEngine.ReplaceAtFront | nativa-engine-spi/src/main/java/io/intellixity/nativa/persistence/spi/exec/AbstractDataEngine.java:227-231 | a leading placeholder is replaced and the replacement goes on over the rest |
| DataEngine.FirstGenerated | nativa-engine-spi/src/main/java/io/intellixity/nativa/persistence/spi/exec/AbstractDataEngine.java:329-346 | the scan picks the first field that is auto-generated (and a key, on the first pass), and none only when no field qualifies |
| DataEngine.GeneratedFieldPrefersKey | nativa-engine-spi/src/main/java/io/intellixity/nativa/persistence/spi/exec/AbstractDataEngine.java:328-347 | a key auto-generated field wins over any other; some field is picked exactly when one is auto-generated, and it is auto-generated |
| DataEngine.Engine.constructor | nativa-engine-spi/src/main/java/io/intellixity/nativa/persistence/spi/exec/AbstractDataEngine.java:70-132 | the engine keeps its collaborators, starts with no transaction hook called, and a missing default propagation is REQUIRED |
| DataEngine.Engine.MarkerDecides | nativa-engine-spi/src/main/java/io/intellixity/nativa/persistence/spi/exec/AbstractDataEngine.java:153-157 | a transaction bound by another engine is invisible, this engine's own is seen, so REQUIRED opens a new one only in the first case |
| DataEngine.Engine.CommitOrRollbackOnce | nativa-engine-spi/src/main/java/io/intellixity/nativa/persistence/spi/exec/AbstractDataEngine.java:185-197 | a transaction begun by inTx is begun once, committed once exactly when the work succeeds, rolled back once exactly when the call fails; a failing work's error is what the caller gets; without a new transaction no hook runs |
| DataEngine.Engine.Open | nativa-engine-spi/src/main/java/io/intellixity/nativa/persistence/spi/exec/AbstractDataEngine.java:165-189 | the opening half of inTx: a refusal or a failing begin is reported and nothing else happens; a new transaction is recorded as begun and bound to this engine |
| DataEngine.Engine.Close | nativa-engine-spi/src/main/java/io/intellixity/nativa/persistence/spi/exec/AbstractDataEngine.java:186-196 | the closing half: inline work is returned untouched; a new transaction is rolled back on failure, committed otherwise, rolled back if the commit fails |
| DataEngine.Engine.OpenClose | nativa-engine-spi/src/main/java/io/intellixity/nativa/persistence/spi/exec/AbstractDataEngine.java:165-197 | opening and closing together give the result and the hooks inTx promises |
| DataEngine.Engine.InTx | nativa-engine-spi/src/main/java/io/intellixity/nativa/persistence/spi/exec/AbstractDataEngine.java:165-197 | inTx runs the work under the transaction its propagation calls for, returning its settled result and calling exactly the hooks of its trail |
| DataEngine.Engine.SubstituteIfString | nativa-engine-spi/src/main/java/io/intellixity/nativa/persistence/spi/exec/AbstractDataEngine.java:227-231 | only a text is changed, and it stays a text |
| DataEngine.Engine.SubstitutePassesPlain | nativa-engine-spi/src/main/java/io/intellixity/nativa/persistence/spi/exec/AbstractDataEngine.java:227-231 | a text without the placeholder is passed through; a leading placeholder becomes the namespace |
| DataEngine.Engine.ResolveSchema | nativa-engine-spi/src/main/java/io/intellixity/nativa/persistence/spi/exec/AbstractDataEngine.java:212-225 | a view without the schema flag is returned as is; with it a blank namespace is refused; otherwise only the base texts change |
| DataEngine.Engine.Select | nativa-engine-spi/src/main/java/io/intellixity/nativa/persistence/spi/exec/AbstractDataEngine.java:249-260 | an unresolvable reference or an invalid query fails before anything is built or executed |
| DataEngine.Engine.Count | nativa-engine-spi/src/main/java/io/intellixity/nativa/persistence/spi/exec/AbstractDataEngine.java:263-272 | as select, for the count |
| DataEngine.Engine.ReadsSeeOwnTx | nativa-engine-spi/src/main/java/io/intellixity/nativa/persistence/spi/exec/AbstractDataEngine.java:249-272 | reads under another engine's transaction behave as reads outside any transaction |
| DataEngine.Engine.GeneratedTarget | nativa-engine-spi/src/main/java/io/intellixity/nativa/persistence/spi/exec/AbstractDataEngine.java:324-366 | the field a generated id goes to is auto-generated, of a scalar type, and its column was not given a value by the insert |
| DataEngine.Engine.GeneratedTargetIsPreferred | nativa-engine-spi/src/main/java/io/intellixity/nativa/persistence/spi/exec/AbstractDataEngine.java:328-347 | the target is the preferred generated field, so a key auto-generated field is the one written |
| DataEngine.Engine.GeneratedIdOnlyOnTarget | nativa-engine-spi/src/main/java/io/intellixity/nativa/persistence/spi/exec/AbstractDataEngine.java:324-370 | the entity changes only for a non-null entity, a non-null id and a named target field |
| DataEngine.Engine.GeneratedIdWritten | nativa-engine-spi/src/main/java/io/intellixity/nativa/persistence/spi/exec/AbstractDataEngine.java:366-401 | a decoded non-null id is written to the target field through the fluent setter |
| DataEngine.Engine.FindGeneratedField | nativa-engine-spi/src/main/java/io/intellixity/nativa/persistence/spi/exec/AbstractDataEngine.java:329-346 | the two field loops compute the preferred generated field |
| DataEngine.Engine.HasExplicit | nativa-engine-spi/src/main/java/io/intellixity/nativa/persistence/spi/exec/AbstractDataEngine.java:352-358 | the column loop finds whether the insert gives the column a non-null value |
| DataEngine.Engine.FindTarget | nativa-engine-spi/src/main/java/io/intellixity/nativa/persistence/spi/exec/AbstractDataEngine.java:328-364 | the lookups compute the generated target |
| DataEngine.Engine.ApplyGeneratedIdIfNeeded | nativa-engine-spi/src/main/java/io/intellixity/nativa/persistence/spi/exec/AbstractDataEngine.java:324-370 | the generated id is applied as specified, with the user-type registry kept valid |
| DataEngine.Engine.DecodeAndSet | nativa-engine-spi/src/main/java/io/intellixity/nativa/persistence/spi/exec/AbstractDataEngine.java:365-366 | the id is decoded with the field's user type and set on the entity |
| DataEngine.Engine.WritesSeeInnerTx | nativa-engine-spi/src/main/java/io/intellixity/nativa/persistence/spi/exec/AbstractDataEngine.java:185-188 | work run in a new transaction sees that transaction as the current one |
| DataEngine.Engine.InsertWork | nativa-engine-spi/src/main/java/io/intellixity/nativa/persistence/spi/exec/AbstractDataEngine.java:281-286 | the insert work plans, renders, executes and applies the generated id as specified |
| DataEngine.Engine.UpsertWork | nativa-engine-spi/src/main/java/io/intellixity/nativa/persistence/spi/exec/AbstractDataEngine.java:303-308 | the upsert work plans, renders, executes and applies the generated id as specified |
| DataEngine.Engine.Insert | nativa-engine-spi/src/main/java/io/intellixity/nativa/persistence/spi/exec/AbstractDataEngine.java:276-288 | an unresolvable reference fails before any transaction; otherwise the insert work runs under the write propagation |
| DataEngine.Engine.Upsert | nativa-engine-spi/src/main/java/io/intellixity/nativa/persistence/spi/exec/AbstractDataEngine.java:298-310 | as insert, with the upsert work |
| DataEngine.Engine.Update | nativa-engine-spi/src/main/java/io/intellixity/nativa/persistence/spi/exec/AbstractDataEngine.java:416-426 | as insert, with the update-by-id work, returning the affected count |
| DataEngine.Engine.UpdateByCriteria | nativa-engine-spi/src/main/java/io/intellixity/nativa/persistence/spi/exec/AbstractDataEngine.java:437-450 | as insert, with the normalise-validate-plan-execute work of an update by criteria |
| DataEngine.Engine.DeleteByCriteria | nativa-engine-spi/src/main/java/io/intellixity/nativa/persistence/spi/exec/AbstractDataEngine.java:452-465 | as insert, with the delete-by-criteria work |
| DataEngine.Engine.NestedCallsJoin | nativa-engine-spi/src/main/java/io/intellixity/nativa/persistence/spi/exec/AbstractDataEngine.java:165-183 | a write called inside a write's own transaction joins it rather than opening another (except under REQUIRES_NEW) |
| DataEngine.Engine.EmptyBatchSucceeds | nativa-engine-spi/src/main/java/io/intellixity/nativa/persistence/spi/exec/AbstractDataEngine.java:290-296 | an empty bulk insert, upsert or update succeeds without touching the store: no entity comes back, and the update count is 0 |
| DataEngine.Engine.InsertAllEach | nativa-engine-spi/src/main/java/io/intellixity/nativa/persistence/spi/exec/AbstractDataEngine.java:290-296 | a bulk insert succeeds exactly when every single insert does, and hands back each entity as its insert left it, generated id written; an unresolvable reference fails a non-empty batch |
| DataEngine.Engine.UpdateAllSums | nativa-engine-spi/src/main/java/io/intellixity/nativa/persistence/spi/exec/AbstractDataEngine.java:428-435 | a bulk update returns the sum of the single updates' counts |
| DataEngine.Engine.InsertAllStops | nativa-engine-spi/src/main/java/io/intellixity/nativa/persistence/spi/exec/AbstractDataEngine.java:290-296 | a bulk insert stops at the first failing entity |
| DataEngine.Engine.UpsertAllStops | nativa-engine-spi/src/main/java/io/intellixity/nativa/persistence/spi/exec/AbstractDataEngine.java:312-318 | a bulk upsert stops at the first failing entity |
| DataEngine.Engine.UpdateAllStops | nativa-engine-spi/src/main/java/io/intellixity/nativa/persistence/spi/exec/AbstractDataEngine.java:428-435 | a bulk update stops at the first failing entity |
| DataEngine.Engine.InsertEach | nativa-engine-spi/src/main/java/io/intellixity/nativa/persistence/spi/exec/AbstractDataEngine.java:293 | the loop inserts each entity in turn inside the joined transaction and collects the entities with their ids written |
| DataEngine.Engine.UpsertEach | nativa-engine-spi/src/main/java/io/intellixity/nativa/persistence/spi/exec/AbstractDataEngine.java:315 | the loop upserts each entity in turn inside the joined transaction and collects the entities with their ids written |
| DataEngine.Engine.UpdateEach | nativa-engine-spi/src/main/java/io/intellixity/nativa/persistence/spi/exec/AbstractDataEngine.java:430-433 | the loop adds up each update's count inside the joined transaction |
| DataEngine.Engine.BulkInsert | nativa-engine-spi/src/main/java/io/intellixity/nativa/persistence/spi/exec/AbstractDataEngine.java:290-296 | the batch runs inside one transaction opened as the write propagation says, and its result is the entities with their generated ids written |
| DataEngine.Engine.BulkUpsert | nativa-engine-spi/src/main/java/io/intellixity/nativa/persistence/spi/exec/AbstractDataEngine.java:312-318 | the batch runs inside one transaction opened as the write propagation says, and its result is the entities with their generated ids written |
| DataEngine.Engine.BulkUpdate | nativa-engine-spi/src/main/java/io/intellixity/nativa/persistence/spi/exec/AbstractDataEngine.java:428-435 | the batch runs inside one transaction opened as the write propagation says and returns the total count |
| DataEngine.Engine.InvalidQueryNeverExecutes | nativa-engine-spi/src/main/java/io/intellixity/nativa/persistence/spi/exec/AbstractDataEngine.java:437-465 | an invalid query fails an update or delete by criteria before planning |
| LruTtlCache.Find | nativa-governance/src/main/java/io/intellixity/nativa/persistence/governance/internal/LruTtlCache.java:55 | the lookup finds a slot holding the key, and finds none exactly when no slot holds it |
| LruTtlCache.Without | nativa-governance/src/main/java/io/intellixity/nativa/persistence/governance/internal/LruTtlCache.java:58 | removing one entry shortens the access order by one |
| LruTtlCache.Newest | nativa-governance/src/main/java/io/intellixity/nativa/persistence/governance/internal/LruTtlCache.java:103-110 | eviction keeps at most the capacity, or leaves the order untouched |
| LruTtlCache.Cache.Live | nativa-governance/src/main/java/io/intellixity/nativa/persistence/governance/internal/LruTtlCache.java:94-101 | pruning never adds entries |
| LruTtlCache.Cache.constructor | nativa-governance/src/main/java/io/intellixity/nativa/persistence/governance/internal/LruTtlCache.java:41-49 | a new cache is empty and keeps its capacity, TTL and idle limits |
| LruTtlCache.Cache.PruneExpired | nativa-governance/src/main/java/io/intellixity/nativa/persistence/governance/internal/LruTtlCache.java:94-101 | the iterator loop removes exactly the expired entries, keeping the order of the rest |
| LruTtlCache.Cache.EvictIfNeeded | nativa-governance/src/main/java/io/intellixity/nativa/persistence/governance/internal/LruTtlCache.java:103-110 | the eviction loop drops the least recently used entries until the capacity is respected |
| LruTtlCache.Cache.Lookup | nativa-governance/src/main/java/io/intellixity/nativa/persistence/governance/internal/LruTtlCache.java:55-62 | a missing key reads nothing; an expired entry is removed and reads nothing; a live entry is read and moved to the most recent end with its access time refreshed |
| LruTtlCache.Cache.FindSlot | nativa-governance/src/main/java/io/intellixity/nativa/persistence/governance/internal/LruTtlCache.java:55 | the scan finds the slot of the key, if any |
| LruTtlCache.Cache.Get | nativa-governance/src/main/java/io/intellixity/nativa/persistence/governance/internal/LruTtlCache.java:51-63 | a read prunes every expired entry and then looks the key up |
| LruTtlCache.Cache.Put | nativa-governance/src/main/java/io/intellixity/nativa/persistence/governance/internal/LruTtlCache.java:65-72 | a write prunes, stores the new entry as the most recent, evicts down to the capacity and returns the live previous value |
| LruTtlCache.Cache.GetOrCompute | nativa-governance/src/main/java/io/intellixity/nativa/persistence/governance/internal/LruTtlCache.java:74-81 | the supplier runs exactly when the read finds nothing; otherwise the cached value is returned; a computed value is stored by a put |
| LruTtlCache.Cache.Size | nativa-governance/src/main/java/io/intellixity/nativa/persistence/governance/internal/LruTtlCache.java:83-86 | the size counts the live entries only and never exceeds the capacity |
| LruTtlCache.Cache.LiveIff | nativa-governance/src/main/java/io/intellixity/nativa/persistence/governance/internal/LruTtlCache.java:94-101 | an entry survives pruning exactly when it was present and not expired |
| LruTtlCache.Cache.LiveUnique | nativa-governance/src/main/java/io/intellixity/nativa/persistence/governance/internal/LruTtlCache.java:94-101 | pruning keeps the keys unique |
| LruTtlCache.Cache.NewestUnique | nativa-governance/src/main/java/io/intellixity/nativa/persistence/governance/internal/LruTtlCache.java:103-110 | eviction keeps the keys unique |
| LruTtlCache.Cache.ExpiredNeverReturned | nativa-governance/src/main/java/io/intellixity/nativa/persistence/governance/internal/LruTtlCache.java:51-63 | an expired entry is never returned and is gone after the read |
| LruTtlCache.Cache.LiveEntryRead | nativa-governance/src/main/java/io/intellixity/nativa/persistence/governance/internal/LruTtlCache.java:55-62 | reading a live entry returns its value and makes it the most recently used |
| LruTtlCache.Cache.StoredUnique | nativa-governance/src/main/java/io/intellixity/nativa/persistence/governance/internal/LruTtlCache.java:69 | storing keeps keys unique and places the new entry last |
| LruTtlCache.Cache.PutHoldsKey | nativa-governance/src/main/java/io/intellixity/nativa/persistence/governance/internal/LruTtlCache.java:65-72 | right after a put the key is present, most recent, with the written value and fresh times |
| LruTtlCache.Cache.PutReturnsPrevious | nativa-governance/src/main/java/io/intellixity/nativa/persistence/governance/internal/LruTtlCache.java:69-71 | a put returns the value the key held before |
| LruTtlCache.Cache.FindFirst | nativa-governance/src/main/java/io/intellixity/nativa/persistence/governance/internal/LruTtlCache.java:55 | the lookup returns the first slot holding the key |
| LruTtlCache.Cache.Create | nativa-governance/src/main/java/io/intellixity/nativa/persistence/governance/internal/LruTtlCache.java:41-49 | a capacity below one, then a negative TTL, then a negative idle limit is refused with its message; otherwise the cache is empty with those limits |
| LruTtlCache.FindUnique | nativa-governance/src/main/java/io/intellixity/nativa/persistence/governance/internal/LruTtlCache.java:55 | with one entry per key, the lookup finds exactly that entry |
| LruTtlCache.WithoutUnique | nativa-governance/src/main/java/io/intellixity/nativa/persistence/governance/internal/LruTtlCache.java:58 | removing an entry keeps keys unique and removes its key |

## Left out

- Driver I/O is not part of this model. That covers the JDBC and MongoDB engines, their sessions, result sets and row readers, and the database state. The engine's execute, begin, commit and rollback hooks are parameters whose results the model takes as given.
- Concurrency is left out. The cache's `synchronized` methods, the registries' concurrent maps and the ScopedValue binding are sequential here. The current transaction slot is an explicit `scope` argument that the caller passes in.
- The property-type resolver and the user-type registry cache with ConcurrentHashMap.computeIfAbsent. A recursive computeIfAbsent on the same map can fail with "Recursive update"; the model does not capture that failure.
- Java whitespace, blankness and case are modelled over ASCII only. This affects `Strings.IsWhitespace`, `Strings.IsUpper`, `Strings.LowerChar` and `Strings.ToLower`, which the type-reference parser and the view-mapping policies use. Java's trim and isBlank accept further whitespace characters, and toLowerCase depends on the locale and on Unicode.
- The generated POJO accessor is a total function. The accessorFor lookup that may throw is not modelled.
- The user-type scalar codecs, the binders and the binder world are parameters. The concrete scalar global types (the uuid codec, instant, numbers, double parsing) are not part of this model; only the `UUID.fromString` that the JDBC operand coercion calls is.
- The keys of a decoded or encoded map are reduced to their text with `UserTypes.KeyText`. Java keeps the decoded key object.
- QueryValidation.Validate: resolves paths with the uncached `PropertyTypeResolver.ResolveNoCache`. Java uses the caching resolver. The two agree, as `PropertyTypeResolver.Resolver.Resolve` proves.
- JdbcPredicate.CondSql: uses the uncached resolver too, and so do `JdbcPredicate.RenderCondition`, `JdbcSeek.KeyOf` and `MongoRender.ScalarTypeOf`. The cache changes no result, for the same reason.
- The order of a Java map is fixed once in the model: entities' fields, view mappings and nested "fields" maps are association lists read front to back. Java builds them with `Map.copyOf`, whose iteration order is unspecified, so the order of extracted columns, select items and key columns in Java may differ from the model's. The model's properties are proved for the order it fixes.
- The authoring registry is the in-memory one: a map from entity type to entity, refusing an unknown type with "Unknown authoring type: ". Other registry implementations are not part of this model.
- Values.Show: a Java array operand prints as its type and identity hash under String.valueOf; the model prints it like a list. Only message text for such operands differs.
- UuidText.FromString: a group that Long.parseLong refuses fails here with "Invalid UUID string: " and the text. Java's NumberFormatException, also an IllegalArgumentException, carries a message of its own. Only ASCII hexadecimal digits are accepted, where Character.digit also takes other Unicode digits. The JDK's fast path for 36-character input gives the same results and is not modelled separately.
- LruTtlCache.Cache.Get: uses unbounded integers for `now - writeAt` and `now - accessAt`. The Java long subtraction can overflow for clock values near the ends of the long range.
- LruTtlCache.Cache.GetOrCompute: takes the supplier's value as an argument. A supplier that throws is not modelled. A null key, which Java refuses with a NullPointerException, cannot be expressed.
- LruTtlCache.Cache.constructor: requires a positive capacity and non-negative limits. The checking `LruTtlCache.Cache.Create` models the three refusals.
- DataEngine.Engine.BulkInsert: its ensures says nothing under REQUIRES_NEW. There every nested insert opens a transaction of its own, and the trail of those transactions is not specified. Java returns nothing and writes each generated id into the caller's entity objects; the model, whose entities are values, returns the written entities instead, so aliasing between the list and other references is not captured.
- DataEngine.Engine.BulkUpsert: its ensures says nothing under REQUIRES_NEW, and it returns the written entities, for the same reasons.
- DataEngine.Engine.Insert: when the commit or a later step fails, the result is only the error. In Java the generated id has already been written into the caller's entity object by then and stays there; the model does not return that partly written entity. The same holds for `DataEngine.Engine.Upsert`, `BulkInsert` and `BulkUpsert`.
- DataEngine.Engine.BulkUpdate: its ensures says nothing under REQUIRES_NEW, for the same reason. The sum of the counts is an unbounded integer, so Java's long overflow is not modelled.
- DataEngine.Engine.Select: modelled as functions of their inputs, together with `DataEngine.Engine.Count`. Row reading and the row-reader registry are left out. The result is what the execute hook returns.
- A checked exception thrown by the work, and wrapped by runInNewTx in a RuntimeException, is an `Err` like any other failure. An exception thrown by rollback is dropped, as in Java.
- invokeFluentSetter's reflection is an abstract mutator. The search for a setter, and a setter that is missing or throws, are not modelled.
- The Mongo engine encodes each DML value through the binder pipeline when it executes the statement, not when it plans it. That encoding is not part of this model. The planners' statements carry the raw values and their bind types.
- The Jackson-based query JSON serialisers, the code generator, the governance wrapper, factory discovery and the example application are not part of this model.

## Findings

| source | as written | input that shows it | evidently intended | confidence | as-written member | corrected member |
|---|---|---|---|---|---|---|
| nativa-engine-jdbc/src/main/java/io/intellixity/nativa/persistence/jdbc/dialect/AbstractJdbcSqlDialect.java:540-545 | stripParensIfAny drops the first and last characters of a WHERE predicate whenever it starts with "(" and ends with ")", even when the two do not pair up | an update or delete by criteria whose filter is one IN condition on a column mapped to the SQL expression "(a)": the predicate "(a) IN (:b1)" becomes "a) IN (:b1" | strip the outer pair only when it encloses the whole predicate | not executed | JdbcDml.StripParensIfAny, exhibited by JdbcDml.StripParensIfAnyBreaksList | JdbcDml.StripMatchingParens, with JdbcDml.StripKeepsBalance and JdbcDml.StripUnwrapsGroup |
| nativa-engine-jdbc/src/main/java/io/intellixity/nativa/persistence/jdbc/dialect/AbstractJdbcSqlDialect.java:200-201 | appendSeekFilter appends the keyset predicate "(...) OR (...)" unparenthesised after " AND " when the base SQL already has a WHERE | a view whose SQL holds a WHERE clause, paged by seek over two sort fields: "... WHERE x = 1 AND (a > :k1) OR (a = :k2 AND b > :k3)", so the view's condition only guards the first term | append the predicate as one parenthesised group | not executed | JdbcSeek.SeekOrEscapesWhere (over SeekJoinAsWritten, which the model's keyset paging uses) | JdbcSeek.SeekPredicateEnclosed (over SeekJoin) |
| nativa-jdbc-postgres/src/main/java/io/intellixity/nativa/persistence/jdbc/postgres/PostgresDialect.java:124-134 | pgTextArrayLiteral puts the path segments between single quotes without escaping a quote inside them | JSON_PATH_EXISTS with path "x'y" renders '{x'y}', which leaves the parameter scanner inside a quoted string, so a following ":b1" is never turned into "?" | double each single quote in the literal's body | not executed | PostgresDialect.PgTextArrayLiteral, exhibited by PostgresDialect.QuotedPathSwallowsPlaceholder | PostgresDialect.PgTextArrayLiteralEscaped, with PostgresDialect.EscapedLiteralBindsNothing and PostgresDialect.EscapedLiteralUnchanged |
| nativa-core/src/main/java/io/intellixity/nativa/persistence/authoring/DiscoveredUserTypeRegistry.java:95-104 | trySynthesize splits a map body at its first comma, whatever its nesting depth | "map<map<a,b>,c>" with a, b and c registered: the key part "map<a" is no type, so get fails with "Unknown userTypeId" | split at the depth-0 comma, as the type-reference parser does | not executed | UserTypeRegistry.MapSplitAsWritten, exhibited by UserTypeRegistry.Registry.NestedMapKeyMisSplit | UserTypeRegistry.MapSplit, with UserTypeRegistry.MapSplitOfIds |

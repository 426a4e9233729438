# admin-autobot: utility helpers and the resource-configuration guard

This project models two sequential pieces of admin-autobot, a tool that runs
administrative commands on a fleet of servers:

- the `BotUtils` helpers: the null-reference and empty-string checks over
  varargs arrays, `CreateMap`, which files a collection of records under each
  record's `mapKey()`, and `convertStringToBoolean`;
- `ResourceConfig`, the singleton that holds the loaded servers, commands,
  executables and monitors, guarded so that `loadConfig` succeeds only once.

Files:

- `wrappers.dfy` (`Wrappers`): `Option`, the model of a nullable reference.
- `java_string.dfy` (`JavaString`): `String.trim()` and
  `String.equalsIgnoreCase`, which the helpers rely on.
- `bot_utils.dfy` (`BotUtils`): the helpers.
- `types.dfy` (`Types`): servers, commands, executables and monitors as
  opaque records carrying their `mapKey`.
- `resource_config.dfy` (`Config`): the load-once state machine.

Java values are modelled as follows. A reference that may be null is an
`Option`, except the key `mapKey()` returns, which is always a string here. An array or collection argument is `Option<seq<...>>`: null, or its
elements in iteration order. A `Set` is therefore given by the order its
iterator visits it, which is what decides which record `CreateMap` keeps when
two share a key. The `ResourceConfig` class (its static `ConfigLoaded` flag,
the reference the singleton holder keeps, and the fields of that one object)
is the value `Config.ResourceConfig`. `loadConfig` returns the next value
together with the exception it threw, if any. The stored sets and maps are
values as well; only `loadConfig` calls change the state. The `AtomicBoolean` is
an ordinary boolean.

`HasNullReferences` follows its code, not its doc comment. The comment says
the method returns true when no object is null. The code returns true when
the array is null or some element is null.

## Model

| member | source | states |
|---|---|---|
| BotUtils.HasNullReferencesInArray | admin-autobot/src/main/java/com/novicehacks/autobot/core/BotUtils.java:38-44 | the loop returns true exactly when some element of the array is null |
| BotUtils.HasNullReferences | admin-autobot/src/main/java/com/novicehacks/autobot/core/BotUtils.java:31-44 | true for a null array; otherwise true iff some element is null, so an empty array gives false |
| BotUtils.NestedNullIsNotSeen | admin-autobot/src/main/java/com/novicehacks/autobot/core/BotUtils.java:17-44 | the check is shallow: `HasNullReferences` of an array whose only element is an object array returns false, whatever the inner array holds |
| BotUtils.HasEmptyStringsInArray | admin-autobot/src/main/java/com/novicehacks/autobot/core/BotUtils.java:125-131 | the loop, which tests `trim()` against "", returns true exactly when some element is null or made only of chars at or below U+0020 |
| BotUtils.HasEmptyStrings | admin-autobot/src/main/java/com/novicehacks/autobot/core/BotUtils.java:118-131 | true for a null array; otherwise true iff some element is null or blank, so an empty array gives false |
| JavaString.Trim | admin-autobot/src/main/java/com/novicehacks/autobot/core/BotUtils.java:127 | `trim()` is empty exactly when every char is at or below U+0020, and otherwise starts and ends with a kept char |
| JavaString.TrimRemovesPadding | admin-autobot/src/main/java/com/novicehacks/autobot/core/BotUtils.java:127 | trimming any padded string returns its unpadded core, so `trim()` is fully determined |
| JavaString.TrimIdempotent | admin-autobot/src/main/java/com/novicehacks/autobot/core/BotUtils.java:127 | trimming twice is trimming once |
| BotUtils.PutEach | admin-autobot/src/main/java/com/novicehacks/autobot/core/BotUtils.java:67-69 | putting the elements in order yields the key set of the elements, at most one entry per element, each value the last element with that key |
| BotUtils.CreateMap | admin-autobot/src/main/java/com/novicehacks/autobot/core/BotUtils.java:60-71 | empty map for a null or empty collection; otherwise the keys are the elements' keys, each value is stored under its own key and is the last element with that key, and the map is no larger than the collection |
| BotUtils.KeysOfDistinctSize | admin-autobot/src/main/java/com/novicehacks/autobot/core/BotUtils.java:67-70 | elements with pairwise distinct keys have as many keys as elements |
| BotUtils.CreateMapDistinctKeys | admin-autobot/src/main/java/com/novicehacks/autobot/core/BotUtils.java:67-70 | with distinct keys every element is found under its own key and the map has one entry per element |
| BotUtils.CreateMapLaterWins | admin-autobot/src/main/java/com/novicehacks/autobot/core/BotUtils.java:67-69 | of the elements sharing a key, the last one visited is the one stored |
| JavaString.CharEqualsIgnoreCase | admin-autobot/src/main/java/com/novicehacks/autobot/core/BotUtils.java:166 | the per-char test of `regionMatches` with case ignored: equal chars, equal upper-case forms, or equal lower-case forms of those, under the ASCII case mapping |
| JavaString.EqualsIgnoreCase | admin-autobot/src/main/java/com/novicehacks/autobot/core/BotUtils.java:166 | `equalsIgnoreCase`: same length and a case-ignoring char match at every position, under the ASCII case mapping |
| JavaString.CharEqualsIgnoreCaseIffLower | admin-autobot/src/main/java/com/novicehacks/autobot/core/BotUtils.java:166 | under the ASCII case mapping, two chars match ignoring case iff their lower-case forms are equal |
| JavaString.EqualsIgnoreCaseIffLower | admin-autobot/src/main/java/com/novicehacks/autobot/core/BotUtils.java:166 | under the ASCII case mapping, `equalsIgnoreCase` holds iff both strings have the same lower-case form |
| BotUtils.ConvertStringToBoolean | admin-autobot/src/main/java/com/novicehacks/autobot/core/BotUtils.java:163-170 | false for null; otherwise true iff the string lower-cases to "true" |
| BotUtils.ConvertStringToBooleanAccepts | admin-autobot/src/main/java/com/novicehacks/autobot/core/BotUtils.java:166 | the accepted strings are exactly the sixteen letter-case variants of "true" |
| BotUtils.ConvertStringToBooleanExamples | admin-autobot/src/main/java/com/novicehacks/autobot/core/BotUtils.java:163-170 | "TRUE" and "True" convert to true; null, " true", "yes", "1" and "false" to false |
| Config.ClassInit | admin-autobot/src/main/java/com/novicehacks/autobot/config/ResourceConfig.java:41-55 | class initialisation: the flag is false, the one object's six fields are null, and the invariant holds |
| Config.GetInstance | admin-autobot/src/main/java/com/novicehacks/autobot/config/ResourceConfig.java:120-122 | returns the one reference the holder class keeps |
| Config.Servers | admin-autobot/src/main/java/com/novicehacks/autobot/config/ResourceConfig.java:129-131 | returns the stored server set; null before any load |
| Config.Commands | admin-autobot/src/main/java/com/novicehacks/autobot/config/ResourceConfig.java:138-140 | returns the stored command set; null before any load |
| Config.Executables | admin-autobot/src/main/java/com/novicehacks/autobot/config/ResourceConfig.java:147-149 | returns the stored executable set; null before any load |
| Config.Monitors | admin-autobot/src/main/java/com/novicehacks/autobot/config/ResourceConfig.java:156-158 | returns the stored monitor set; null before any load |
| Config.ServerMap | admin-autobot/src/main/java/com/novicehacks/autobot/config/ResourceConfig.java:179-181 | null exactly before a load; afterwards `CreateMap` of the stored server set |
| Config.CommandMap | admin-autobot/src/main/java/com/novicehacks/autobot/config/ResourceConfig.java:188-190 | null exactly before a load; afterwards `CreateMap` of the stored command set |
| Config.LoadConfig | admin-autobot/src/main/java/com/novicehacks/autobot/config/ResourceConfig.java:75-91 | the first call sets the flag, stores the four sets as given, and sets the two maps to exactly `CreateMap` of the given server and command sets, so they hold every key of those sets, each with the last element carrying that key; a later call throws IllegalStateException and leaves the whole state unchanged |
| Config.ClassInitValid | admin-autobot/src/main/java/com/novicehacks/autobot/config/ResourceConfig.java:41-47 | before any load the flag is false and every accessor returns null |
| Config.LoadConfigPreservesValid | admin-autobot/src/main/java/com/novicehacks/autobot/config/ResourceConfig.java:78-85 | after a load the two maps are exactly `CreateMap` of the stored server and command sets, and a rejected call keeps that so |
| Config.ReplayMonotone | admin-autobot/src/main/java/com/novicehacks/autobot/config/ResourceConfig.java:78-79 | the loaded flag never goes back to false, whatever calls follow |
| Config.ReplayKeepsInstance | admin-autobot/src/main/java/com/novicehacks/autobot/config/ResourceConfig.java:166-172 | `getInstance` returns the same reference after any sequence of calls |
| Config.ReplayWhenLoaded | admin-autobot/src/main/java/com/novicehacks/autobot/config/ResourceConfig.java:86-88 | once loaded, every further call throws and the state stays as it was |
| Config.ReplayFromClassInit | admin-autobot/src/main/java/com/novicehacks/autobot/config/ResourceConfig.java:75-91 | from class initialisation the first call succeeds, every later one throws, and the accessors return the first call's arguments for good |

## Left out

- `PropogateInterruptIfExist` and `DoNotPropogateInterrupt`: they only read and set the current thread's interrupt flag.
- `newLine`: it only returns the system line separator.
- `convertStringToInt` (both overloads): it wraps `Integer.parseInt`, and the `DecimalRadix` type is not part of this model.
- The two-argument `CreateMap` that `ResourceConfig` calls: it lives in another package and is not part of this model. It is modelled by the one-argument `CreateMap`, whose type argument is documented as having no effect on the result. The sample objects from `serverType` and `commandType` only feed that argument.
- Null elements inside a collection: `CreateMap` would throw NullPointerException on `mapKey()`, and `loadConfig` would then be left with the flag set, the four sets stored, `serverMap` null, and `commandMap` also null when the command set held the null. Elements are never null in this model.
- `mapKey()` is assumed never to return null. Java's `HashMap` would file such an element under the null key.
- Aliasing: `loadConfig` stores the caller's own `Set` objects, and the accessors hand out those sets and the internal `HashMap`s. Mutating them changes the Java configuration after the guard has closed, and can make `servers()` and `serverMap()` disagree. Here the stored sets and maps are values, and only `loadConfig` calls are covered.
- The definitions of servers, commands, executables and monitors, and how `mapKey()` is computed: they are not part of this model.
- JavaString.ToUpperChar, JavaString.ToLowerChar: only ASCII letters are case-mapped. Java also matches, for example, "ı" with "i" and "ſ" with "s", which JavaString.EqualsIgnoreCase does not. No character other than the ASCII letters case-maps to t, r, u or e, so the comparison with "true" is not affected.
- Java chars are UTF-16 code units; here a string is a sequence of Unicode scalar values. `trim()` only tests chars at or below U+0020, which are the same in both.
- Concurrency: `loadConfig` reads the flag and then sets it as two separate steps, so two threads loading at once could both pass the guard. The model runs calls one at a time.
- Logging calls (`logger.entry`, `logger.exit`): no behaviour.
- The scheduler, the configuration manager, the uncaught-exception handler and the command-execution exception type: not part of this model.

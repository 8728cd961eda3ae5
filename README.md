# Project dashboard plugin core, modelled in Dafny

This model covers the logic of a desktop-launcher plugin. The plugin collects a user's GitHub
repositories and NPM packages into one dashboard, and it can browse the local filesystem. The
modelled core has six parts:

- **Configuration accessor** (`getLatestConfig`, module `GetConfig`, and the three-field copy in
  `Api`). It reads the stored settings map and normalises it to a record of strings. Each field
  takes its plain key (`githubUsername`) when that value is non-empty, else the legacy `VITE_` key,
  else `""`. A failed read gives the all-empty record. A null read counts as an empty map.
- **Fetchers** `getGithubRepos` and `getNpmPackages` (module `Api`). Each one is a pure function
  from the configuration read and the HTTP reply (an input) to the request it sends, if any, and
  the `{success, data|message}` envelope it returns. GitHub needs both a user name and a token
  before it sends anything. Its errors map to messages in a fixed order: status 403, then status
  404, then code `ECONNABORTED`, then the error's own message, then a default. NPM always sends
  its search and returns the body's `objects`.
- **Projects store** (class `Projects.ProjectsStore`). It holds four independent lists. Each
  getter reads one list and each update action replaces one list. The value-level state
  `Projects.Lists` and `Projects.WithList` specify the updates, and lemmas about them prove
  idempotence, that the last update wins, and that updates of different lists commute.
- **Configuration store** (class `Config.ConfigStore`). It holds one map, which
  `updateConfigInfo` replaces wholesale.
- **Store-access helper** (`usePiniaHelper`, module `PiniaHelper`). It has a fixed registry of
  two store names. Each helper creates its store instance on first use and records it; a creator
  that is not a function records nothing. `get(key)` reads an own property of the store and
  `set(name, value)` runs one of the store's own actions (the code as written also lets inherited
  methods through; see "## Findings"); both check their key at run time. Class
  `PiniaHelper.Pinia` stands for the active Pinia instance, which hands out one store per id, so
  two helpers for the same name share one store.
- **Directory lister** `readDir` (module `Preload`). The filesystem state and the path joiner are
  inputs. A missing path gives the not-found envelope. Otherwise each immediate entry gives one
  `{name, type, path}` record, in order.

An unlisted GitHub error gives the error's own message, or the default message when that message
is empty (src/utils/api.js:68). The token is sent as `Authorization: token <token>`
(src/utils/api.js:49).

Two checks in the helper are modelled in corrected form, and the code as written is modelled
beside them (see "## Findings"): the registry accepts exactly its two own names, and `set`
accepts exactly the store's own actions.

## Model

| member | source | states |
|---|---|---|
| `GetConfig.Resolve` | src/utils/get-config.js:14-18 | A non-empty plain key wins. The legacy key is used only when the plain key is missing or empty. The result is `""` exactly when both keys are falsy. |
| `GetConfig.GetLatestConfig` | src/utils/get-config.js:8-29 | A read that throws, or a null stored config, gives all four fields `""`. Otherwise every field follows the plain-then-legacy rule. |
| `GetConfig.PlainKeyWins` | src/utils/get-config.js:14-18 | For every field, a non-empty plain key decides the field's value, whatever the legacy key holds. |
| `GetConfig.LegacyKeyIsFallback` | src/utils/get-config.js:14-18 | When the plain key is missing or empty and the legacy key is non-empty, the field takes the legacy value. |
| `GetConfig.FieldEmptyOnlyWhenBothKeysFalsy` | src/utils/get-config.js:14-18 | A field is `""` if and only if neither of its two keys is truthy; no field is ever undefined. |
| `GetConfig.PlainInfoRoundTrip` | src/utils/get-config.js:13-19 | A configuration stored under the plain keys normalises back to exactly itself. |
| `GetConfig.LegacyInfoResolvesLikePlain` | src/utils/get-config.js:14-18 | A configuration carrying only the legacy names resolves to the same record as the same values under the plain names. |
| `GetConfig.PlainOverridesLegacy` | src/utils/get-config.js:14-18 | With both spellings stored, each field takes the plain value if non-empty, otherwise the legacy value. |
| `GetConfig.ReadConfigInfo` | src/utils/get-config.js:11 | Reading `getConfigInfo` through the config helper gives the store's current map and leaves it unchanged. A first read whose creator is not a function gives `Threw` and leaves the helper uninitialised; any other read leaves it initialised. The helper's recorded instance and the Pinia stores keep their identity, so the read can be repeated or followed by a write. |
| `GetConfig.ReadSeesLaterWrite` | src/utils/piniaHelper.js:27-38 | A config helper that has read once sees a later write through another config helper, even when its loader would now fail, because the recorded instance is reused. |
| `Api.GetApiLatestConfig` | src/utils/api.js:9-28 | The three-field copy agrees with the four-field accessor on `githubUsername`, `githubToken` and `npmUsername` for every read, including one that throws. |
| `Api.GithubRequest` | src/utils/api.js:45-56 | The user and the token can be read back from the request: the user from the URL `https://api.github.com/users/<user>/repos`, the token from `Authorization: token <token>`. The headers are exactly `Authorization`, `User-Agent` (the user) and `Accept` (the v3 JSON type), and the timeout is 10000 ms. |
| `Api.GithubRequestInjective` | src/utils/api.js:45-52 | Two different (user, token) pairs never produce the same request. |
| `Api.GithubErrorMessage` | src/utils/api.js:60-69 | Checks in order: 403 gives the rate-limit message, 404 the user-not-found message, code `ECONNABORTED` the timeout message. Otherwise the error's message if non-empty, else the default. Never empty. |
| `Api.GetGithubRepos` | src/utils/api.js:33-72 | A request is sent if and only if both user name and token are non-empty. Without one, the fixed "configuration incomplete" failure. With both, the built request, and then the body unchanged on success or the mapped message on error. |
| `Api.UnreadableConfigSendsNothing` | src/utils/api.js:20-27 | When reading the configuration throws, `getGithubRepos` sends no request and fails with the "configuration incomplete" message. |
| `Api.GithubFailuresHaveMessages` | src/utils/api.js:38-70 | Every GitHub failure envelope carries a non-empty message. |
| `Api.StatusOutranksTimeoutCode` | src/utils/api.js:61-69 | A 404 that also carries the timeout code reports an unknown user. A timeout without a status reports a timeout. A 500 with no message reports the default. |
| `Api.NpmRequest` | src/utils/api.js:80-82 | The user can be read back from the search URL `https://registry.npmjs.org/-/v1/search?text=author:<user>`; the request has no headers and no timeout. |
| `Api.ObjectsOf` | src/utils/api.js:83 | Reading `objects` throws exactly on a null or undefined body. It yields the field of an object that has one, and undefined otherwise. |
| `Api.GetNpmPackages` | src/utils/api.js:77-88 | The search is always sent for the configured user. On error the envelope holds the error's message unchanged. On a response it is exactly what reading `objects` off the body gives: the field of an object, `Success(undefined)` for an object without it or for any other non-null body (a string, say), and the TypeError's message for a null or undefined body. |
| `Api.NpmSearchesWithoutUsername` | src/utils/api.js:79-82 | Whenever the configured NPM user name is empty (none stored, or the read failed), the search is still sent, for the empty author. |
| `Api.NpmFailureMessageMayBeEmpty` | src/utils/api.js:86 | An NPM error with an empty message yields a failure envelope with an empty message. |
| `Projects.WithList` | src/stores/projects.js:24-35 | An update sets its own list to exactly the given list and leaves the other three unchanged. |
| `Projects.ListReadBy` | src/stores/projects.js:10-21 | A state or getter property name reads a list whose state key or getter key it is. |
| `Projects.ListUpdatedBy` | src/stores/projects.js:23-35 | An action name updates a list whose action key it is. |
| `Projects.KeysDesignateTheirList` | src/stores/projects.js:10-35 | The state key and getter key of each list read that list; its action key updates it; no key is both. |
| `Projects.UpdateIdempotent` | src/stores/projects.js:24-35 | Applying the same update twice gives the same state as once. |
| `Projects.LastUpdateWins` | src/stores/projects.js:24-35 | For one list, the later of two updates decides its contents. |
| `Projects.UpdatesOfDistinctListsCommute` | src/stores/projects.js:24-35 | Updates of two different lists give the same state in either order. |
| `Projects.ProjectsStore.constructor` | src/stores/projects.js:10-15 | All four lists start empty. |
| `Projects.ProjectsStore.GetRenderedProjects` | src/stores/projects.js:18 | Returns exactly the rendered list. |
| `Projects.ProjectsStore.GetLocalProjects` | src/stores/projects.js:19 | Returns exactly the local list. |
| `Projects.ProjectsStore.GetGithubProjects` | src/stores/projects.js:20 | Returns exactly the GitHub list. |
| `Projects.ProjectsStore.GetNpmProjects` | src/stores/projects.js:21 | Returns exactly the NPM list. |
| `Projects.ProjectsStore.UpdateRenderedProjects` | src/stores/projects.js:24-26 | The rendered list becomes the argument exactly; the other three lists are unchanged. |
| `Projects.ProjectsStore.UpdateLocalProjects` | src/stores/projects.js:27-29 | The local list becomes the argument exactly; the other three lists are unchanged. |
| `Projects.ProjectsStore.UpdateGithubProjects` | src/stores/projects.js:30-32 | The GitHub list becomes the argument exactly; the other three lists are unchanged. |
| `Projects.ProjectsStore.UpdateNpmProjects` | src/stores/projects.js:33-35 | The NPM list becomes the argument exactly; the other three lists are unchanged. |
| `Config.ConfigStore.constructor` | src/stores/config.js:10-12 | The configuration starts as the empty map. |
| `Config.ConfigStore.GetConfigInfo` | src/stores/config.js:14 | Returns exactly the stored map. |
| `Config.ConfigStore.UpdateConfigInfo` | src/stores/config.js:17-20 | The stored map becomes the argument. No key of the old map survives unless the argument has it, and a repeated update changes nothing. |
| `PiniaHelper.Registered` | src/utils/piniaHelper.js:5-16 | Exactly the names `projects` and `config` are registered, each for its own store. |
| `PiniaHelper.RegistrationGuardPassesAsWritten` | src/utils/piniaHelper.js:19 | The guard as written, `!storeMap[storeName]`, is defined by the property read along the prototype chain. It passes every registered name and every key inherited from `Object.prototype`, and those inherited keys are the only unregistered names it passes. |
| `PiniaHelper.RegistrationGuardAdmitsUnregisteredName` | src/utils/piniaHelper.js:19 | The guard as written lets through a name that is not registered (`toString`). |
| `PiniaHelper.Lookup` | src/utils/piniaHelper.js:43-49 | `store[key]` has a value exactly when the key is an own property of the store (a state field, a getter or an action); an action's key reads the action of that name, and the config store's state and getter keys read its map. |
| `PiniaHelper.OwnKeys` | src/stores/projects.js:10-35 | The own keys of each store, the projects store's state fields, getters and actions built from its key names, and the config store's `configInfo`, `getConfigInfo` and `updateConfigInfo` (src/stores/config.js:10-20), share no name with the keys inherited from `Object.prototype`. |
| `PiniaHelper.LookupReadsTheNamedList` | src/utils/piniaHelper.js:48-49 | Both the state key and the getter key of a list read that list's current contents; its action key reads the action. |
| `PiniaHelper.ActionFor` | src/utils/piniaHelper.js:54-58 | A name is accepted as an action exactly when it is an own action of the store; no inherited method is accepted. |
| `PiniaHelper.ActionCheckPassesAsWritten` | src/utils/piniaHelper.js:54 | The check as written, `typeof store[actionName] !== "function"`, is defined by the property read: own keys first, then the prototype chain. It passes every own action and every method inherited from `Object.prototype`, and those inherited methods are the only non-actions it passes. |
| `PiniaHelper.ActionCheckAdmitsNonAction` | src/utils/piniaHelper.js:54 | The action check as written accepts a name that is no action of the store (`toString`). |
| `PiniaHelper.Pinia.UseProjectsStore` | src/stores/projects.js:4-15 | Returns the existing projects store, or creates one with all lists empty; the configuration store is untouched. |
| `PiniaHelper.Pinia.UseConfigStore` | src/stores/config.js:4-12 | Returns the existing configuration store, or creates one with an empty map; the projects store is untouched. |
| `PiniaHelper.StoreHelper.constructor` | src/utils/piniaHelper.js:25 | A new helper has no store instance yet. |
| `PiniaHelper.StoreHelper.InitStore` | src/utils/piniaHelper.js:27-38 | The instance is created at most once. Later calls keep the recorded one. A creator that is not a function fails with its message and records nothing. No store content changes. |
| `PiniaHelper.StoreHelper.Get` | src/utils/piniaHelper.js:41-50 | Returns the current value of an own key. A missing key fails with the message naming it. Store contents never change. An initialised helper keeps its recorded instance, and the Pinia stores keep their identity (or are new where there was none), so later `get` and `set` calls reuse the same store. |
| `PiniaHelper.StoreHelper.Set` | src/utils/piniaHelper.js:52-60 | A store action applies to the value: the named list or the configuration is replaced, and nothing else changes. A name that is no action fails and changes nothing. An initialised helper keeps its recorded instance, and the Pinia stores keep their identity (or are new where there was none). |
| `PiniaHelper.UsePiniaHelper` | src/utils/piniaHelper.js:18-25 | Fails at once, with the registration message, exactly for names outside the registry. Otherwise it returns a fresh helper with no instance. |
| `PiniaHelper.UpdateThenReadThroughHelper` | src/utils/piniaHelper.js:52-60 | `set("updateGithubProjects", xs)` followed by `get("getGithubProjects")` yields `xs`. |
| `PiniaHelper.HelpersShareTheStore` | src/utils/piniaHelper.js:27-38 | Two `config` helpers that have both created their instance share one store: what one writes, the other reads back. |
| `Preload.DescribeAll` | preload.js:14-18 | One record per entry, in the entries' order. Each record has the entry's name and its joined path, with type `目录` exactly for directories and `文件` exactly for the rest. |
| `Preload.Describe` | preload.js:15-17 | The record for one entry has the entry's name, `目录` exactly for a directory and `文件` exactly otherwise, and `join(dirPath, name)` as its path. |
| `Preload.ReadDir` | preload.js:8-20 | A missing path gives `{success:false, message:"目录不存在"}`. An unlistable path throws the listing's error. A directory succeeds with exactly `DescribeAll` of its entries: one record per entry, in order, with name, label and joined path. |
| `Preload.ListingRoundTrip` | preload.js:14-18 | The entries, with their order, names and kinds, can be read back from the records. |
| `Preload.OneFileOneSubdirectory` | preload.js:8-20 | A directory with one file and one subdirectory lists as a `文件` record and a `目录` record with joined paths. |

## Left out

- `getRenderProjects` (preload.js:23-34) is a bare network wrapper with no logic beyond the envelope, and the model leaves it out.
- The HTTP transport is outside the model: the axios calls, their timeout behaviour and the network. The reply is an input, and the 10-second timeout is recorded in the request as data only.
- `fs.existsSync` and `fs.readdirSync` are replaced by the input `PathState`. `path.join` is an uninterpreted parameter, so its normalisation is not modelled. The order of entries is whatever the input gives.
- Persistence is not modelled: the `pinia-plugin-persistedstate` serialisation under `grande-projects`/`grande-config`, rehydration at start-up, and the duplicated `persist:` key in both store definitions.
- Pinia internals are not modelled: `storeToRefs` reactivity, and the own properties Pinia adds to every store. `get` also accepts each of them (`$id`, `$state`, `_p`, ...), and `set` each function-valued one (`$patch`, `$reset`, `$subscribe`, ...); the model's stores have only their state fields, getters and actions.
- The dynamic `import()` of a store module is not modelled. The export it yields is the input `Export`, so a module whose creator is not a function can be modelled even though the two real modules both export one.
- Asynchronous interleaving is not modelled: every call is atomic and sequential.
- Logging (`console.*`), the `window.utoolsApi` mount and its `test` stub, routing, build configuration and application start-up are left out.
- Configuration values are strings only. JavaScript truthiness of non-string values (a number or object stored under a config key) is not modelled. Absent and `""` are both falsy.
- JSON numbers are integers in `JsValues.Json`; they are only passed through, never computed with.
- `Api.ObjectsOf`: the TypeError message for a null or undefined body follows the V8 engine's wording.
- `PiniaHelper.StoreHelper.Set` requires the value's shape to fit the action (a list for a projects action, a map for `updateConfigInfo`). JavaScript would store any value; a typed store cannot hold a mismatched one.
- `PiniaHelper.UsePiniaHelper` follows the corrected registry check `PiniaHelper.Registered`, not the code as written: `usePiniaHelper("toString")` throws the registration message at once in the model, while the code returns a helper (src/utils/piniaHelper.js:19). The as-written guard is `PiniaHelper.RegistrationGuardPassesAsWritten`.
- `PiniaHelper.StoreHelper.Set` follows the corrected action check `PiniaHelper.ActionFor`, not the code as written: `set("toString", xs)` throws the missing-action message in the model, while the code calls the inherited method and returns normally (src/utils/piniaHelper.js:54, 59). The as-written check is `PiniaHelper.ActionCheckPassesAsWritten`.
- `Projects.ProjectsStore.UpdateRenderedProjects`, `UpdateLocalProjects`, `UpdateGithubProjects`, `UpdateNpmProjects`, `Config.ConfigStore.UpdateConfigInfo`, `PiniaHelper.StoreHelper.Set` and `PiniaHelper.StoreHelper.Get` pass lists and maps as values, so the model does not capture aliasing. In the code a store keeps the very array or object it was given (src/stores/projects.js:25-34, src/stores/config.js:18), and `get` hands back the store's live value (src/utils/piniaHelper.js:49). A caller that later mutates either one changes the store without calling an action. The model's "nothing else changes" and "store contents never change" promises hold only for callers that do not mutate those values.
- `PiniaHelper.StoreHelper.Get`: reading an action's key yields the action's name as a stand-in for the function object itself.

## Findings

| source | as written | input that shows it | evidently intended | confidence | as-written member | corrected member |
|---|---|---|---|---|---|---|
| src/utils/piniaHelper.js:19 | `!storeMap[storeName]` looks the name up through the prototype chain, so every key inherited from `Object.prototype` passes the registration guard | `usePiniaHelper("toString")` returns a helper instead of throwing the "not registered" error; the failure surfaces later, on first use, with a different message | only `projects` and `config` are accepted, and every other name fails at once | high; not executed | `PiniaHelper.RegistrationGuardAdmitsUnregisteredName` | `PiniaHelper.Registered` |
| src/utils/piniaHelper.js:54 | `typeof store[actionName] !== "function"` also finds methods inherited from `Object.prototype` | `set("toString", xs)` passes the check, calls `Object.prototype.toString` and returns normally without changing the store | `set` fails for any name that is not an action of the store | high; not executed | `PiniaHelper.ActionCheckAdmitsNonAction` | `PiniaHelper.ActionFor` |

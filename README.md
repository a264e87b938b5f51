# vite-plugin-drupal: the hot-update hook

This project models the `vite:drupal` Vite plugin (`index.js`). The plugin's
`handleHotUpdate` hook runs each time the dev server sees a file change.

- When a `.jsx` file directly inside a directory named `components` changes,
  and its name is `Drupal` followed by one or more of `[A-Za-z0-9_-]`, the
  hook derives the component's tag name and template name. It asks the prop-types
  extractor for the component's props. It then rewrites
  `<drupalTemplatesDir>/<template>.template-info.json`, but only when the new
  JSON differs from what the file already holds.
- When a `*.template-info.json` file changes, the hook sends one
  `{ type: "full-reload" }` message to the browser.

The model has three modules:

- `Paths` (`paths.dfy`) classifies the changed path. `RegexMatch` is the
  reference meaning of `/components/(Drupal[\w\-]+)\.jsx$`: the pattern is not
  anchored at the start, and `\w` is `[A-Za-z0-9_]`. `MatchComponent` computes
  `found[1]`. Lemmas prove that the two agree in both directions, that the
  capture is unique, and that a component path is never a template-info path.
- `Naming` (`naming.dfy`) holds `substring(7)` with JavaScript's behaviour on
  short strings, and the template-info file name built from it.
- `HotUpdate` (`hot_update.dfy`) models the hook. The file system is a
  `map<string, string>` and the browser WebSocket is a `seq<Message>`.
  `kebabCase`, `serializePropTypes` and `JSON.stringify` are function
  parameters (`kebab`, `extract`, `stringify`). The pure function `React` gives
  the effects of one call. Lemmas about `React` state write-if-changed,
  idempotence, "nothing else changes" and the exclusivity of the two branches.
  The class `DevServer` holds the file store and the sent messages.
  `HandleHotUpdate` performs the hook's steps in order and is proved to apply
  exactly the effects `React` describes.

Two behaviours of `index.js` worth stating plainly:

- If the target file does not exist, the `.text()` read on index.js:20
  rejects. The call then ends as `Rejected` with no write and no message.
- The hook sends the reload directly on index.js:35; it does no cache
  invalidation.

## Model

| member | source | states |
|---|---|---|
| `Paths.TrailingRun` | index.js:4 | the result is the longest suffix of the input made only of `[\w\-]` characters: it is a suffix, all its characters are in the class, and the character before it (if any) is not |
| `Paths.MatchComponent` | index.js:13 | a match found is a genuine match of the regular expression (`RegexMatch`), and the capture contains no `/` and no `.` |
| `Paths.MatchComponentComplete` | index.js:4 | every match of the regular expression is found, with exactly its capture |
| `Paths.RegexMatchUnique` | index.js:4 | a path matches the pattern with at most one capture, so `found[1]` is determined by the path |
| `Paths.CaptureShape` | index.js:4 | the capture starts with `Drupal`, has at least 7 characters, has no `/` or `.`, and the path ends in `/` + capture + `.jsx` |
| `Paths.ComponentIsNotTemplateInfo` | index.js:34 | a path that matches the component pattern never ends in `.template-info.json` |
| `Paths.IsTemplateInfo` | index.js:34 | a template-info path is some prefix followed by `.template-info.json`, and it never ends in `.jsx` |
| `Paths.ExampleComponentMatches` | index.js:4 | `/src/components/DrupalFooBar.jsx` matches with capture `DrupalFooBar` |
| `Paths.ExampleBareDrupalIgnored` | index.js:4 | `/src/components/Drupal.jsx` does not match, because `[\w\-]+` needs a character after `Drupal` |
| `Paths.ExampleNestedIgnored` | index.js:4 | `/components/ui/DrupalCard.jsx` does not match, because `/components/` must come right before the file name |
| `Paths.ExampleDottedNameIgnored` | index.js:4 | `/components/DrupalCard.stories.jsx` does not match, because `.` is not in the class |
| `Naming.SubstringFrom` | index.js:17 | JavaScript `substring(start)`: the input is its first `start` characters followed by the result, and the result is `""` past the end |
| `Naming.TemplateName` | index.js:17 | the template name is the tag name without its first 7 characters, and empty when the tag name is shorter |
| `Naming.TemplateNameOfDrupalTag` | index.js:15-17 | a tag name `drupal-<name>` yields the template name `<name>` |
| `Naming.TemplateFileName` | index.js:18 | the target lies in the templates directory and ends in `.template-info.json`, and the template name can be read back from between the two |
| `Naming.TemplateFileNameInjective` | index.js:17-18 | two tag names give the same target file if and only if they give the same template name |
| `Naming.TemplateFileIsNotComponent` | index.js:18 | a target file name never matches the component pattern |
| `HotUpdate.Lookup` | index.js:25 | `propTypes[tagName]` is defined if and only if the key is present, and is then the stored value |
| `HotUpdate.ModulePaths` | index.js:22-23 | the map given to the extractor has exactly one key, the tag name, mapped to the changed file |
| `HotUpdate.NewContentsOnlyTagEntry` | index.js:22-25 | two extractors that give the same entry (or both none) for the tag name on the one-entry map `{tagName: file}` yield the same new contents: nothing else the extractor returns is used |
| `HotUpdate.React` | index.js:10-39 | a write only ever goes to an existing `.template-info.json` file in the templates directory and changes its contents; a reload is sent if and only if the changed path ends in `.template-info.json`; a call rejects if and only if the path is a component source whose target file is missing, and a rejected call writes and sends nothing; only a component path can write |
| `HotUpdate.Apply` | index.js:28 | applying the effects adds at most the written path to the store, gives it the written contents, and leaves every other path as it was |
| `HotUpdate.Messages` | index.js:34-37 | at most one message is sent, and it is `full-reload` exactly when a reload is due |
| `HotUpdate.WriteIffChanged` | index.js:27-29 | the target is written if and only if the path is a component source, the target exists, and the new contents differ from the old; what is written is the target with the serialisation of `{props: propTypes[tagName]}` |
| `HotUpdate.OnlyTargetChanges` | index.js:28 | after a call for a component path, the store has the same set of paths and every path other than the target keeps its contents |
| `HotUpdate.UnrelatedPathIgnored` | index.js:13-34 | a path that matches neither pattern causes no write, no message and no rejection |
| `HotUpdate.WriteAndReloadExclusive` | index.js:13-34 | one call never both writes and sends a reload |
| `HotUpdate.SecondCallWritesNothing` | index.js:27-29 | a second call for the same file with the same extractor output writes nothing and leaves the store as the first call left it, so two calls write at most once |
| `HotUpdate.WrittenFileTriggersReload` | index.js:28-37 | when the written target is in turn reported as changed, that call sends exactly one reload and writes nothing |
| `HotUpdate.ExampleComponentEdit` | index.js:13-29 | if `kebabCase("DrupalFooBar")` is `drupal-foo-bar` and the extracted props differ from the stored file, an edit to `/src/components/DrupalFooBar.jsx` writes `templates/foo-bar.template-info.json` and sends nothing |
| `HotUpdate.DevServer.constructor` | index.js:6-8 | the plugin starts with the given templates directory and file store, and no messages sent |
| `HotUpdate.DevServer.HandleHotUpdate` | index.js:10-39 | the new file store is the old one with `React`'s write applied, the messages sent are the old ones plus `React`'s reload, and the call rejects exactly when `React` says so, naming the missing target |

## Left out

- `kebabCase` from `just-kebab-case` is an external library. It is the parameter `kebab` with no assumed behaviour, so nothing is claimed about case folding or about double dashes.
- `serializePropTypes` and `JSON.stringify` are external. They are the parameters `extract` and `stringify`. `JSON.stringify` dropping a property whose value is `undefined` is inside `stringify`. A rejection of `serializePropTypes` is not modelled: `extract` always returns.
- Asynchrony is not modelled. The awaits on `.text()` and on the extractor have no effect in the model, and concurrent hook calls do not interleave. The `Bun.write` on index.js:28 is not awaited; in the model it takes effect before the call ends.
- The real disk I/O of Bun is not modelled; the map `files` stands in for it.
- A failing `Bun.write` is not modelled.
- The Vite plugin object (`name: 'vite:drupal'`) and the `server.ws` transport are not modelled. Only the sent message is recorded.
- `drushPath` is accepted by the plugin factory but never used, so the constructor does not take it.
- Lengths are counted in Unicode characters, not in UTF-16 code units as JavaScript's `substring` counts them. This only matters for a tag name with characters outside the Basic Multilingual Plane.
- `index.js` has no cache invalidation, bulk-creation counter or client-command handling, so the model has none.

# Credential store and login-script generator

A Dafny model of `src-tauri/credentials_manager.rs` in a Tauri desktop shell that hosts the gemini and poe chat web applications. The file has two parts.

- **Credential store.** `save_credentials`, `get_credentials` and `delete_credentials` keep one record `Credentials{username, password, service}` per service. Each record is a JSON file at `credentials/<service>.json`.
  - A save overwrites the whole file.
  - A missing file means "no credentials". It is not an error.
  - A delete of a missing file succeeds and does nothing.
  - `Path::exists` reports a file whose metadata cannot be read as absent. So `delete_credentials` can report success and keep the file, and a later get may still find it.
- **Login-script generator.** `generate_login_script` builds the JavaScript that fills in a hosted page's login form.
  - It matches the service name against `"gemini"` and `"poe"`. Any other name gets `Err("不支持的服务类型")` ("unsupported service type"), and the model does the same.
  - For the two known names it splices the username and password, exactly as given, into a fixed template.
  - Nothing is escaped. A `"` in a credential closes the JavaScript string literal it was put in. The model keeps this behaviour as it is.

## Files

- `results.dfy` (module `Results`): the `Option` and `Result` types the Rust signatures use.
- `credential_store.dfy` (module `CredentialStore`) holds the store.
  - The `credentials` directory is a class, `Directory`. Its field `files: map<string, Credentials>` maps a file path to the record that file decodes to.
  - The three commands are methods of `Directory`, written step by step with the source's early returns.
  - The new state after a save or a delete is given by a pure function on maps, `Store` or `Erase`. The result of a get is given by `Fetch`. The lemmas are proved about those functions.
  - The map is keyed by the file path `PathFor(service)`, not by the service name. So "other services are untouched" really depends on the path formula being injective, and that is proved.
- `splicing.dfy` (module `Splicing`): facts about concatenated strings, proved for arbitrary pieces. The template proofs use them, so the solver never has to unfold the long template literals.
- `login_script.dfy` (module `LoginScript`) holds the generator.
  - The two templates in the source are the same text except for one attribute name. The email and password selectors use `type` for gemini and `name` for poe. A template is therefore written as shared constant pieces around `Attr(svc)`.
  - Each template has the form `prefix + username + middle + password + tail`. The type `Template` names those three fixed pieces.

Filesystem and serde failures are an explicit parameter, `faults: set<Step>`, naming the steps that fail on this call. A method checks its steps in the source's order. The first failing step becomes the `Err(IoError(step))` it returns, just as `?` returns the first error. `Path::exists` reports a file whose metadata cannot be read as absent. So a `Metadata` fault makes `get_credentials` return `Ok(None)` and makes `delete_credentials` return `Ok(())` without removing anything.

`generate_login_script` is a Dafny function, so the same service, username and password always give the same text.

## Model

| member | source | states |
|---|---|---|
| `CredentialStore.PathFor` | src-tauri/credentials_manager.rs:32 | The record's file is `credentials/`, then the service name, then `.json`. The path's length and its fixed start and end are stated. |
| `CredentialStore.ServiceOfPathFor` | src-tauri/credentials_manager.rs:41 | Reading the service back out of `PathFor(s)` gives exactly `s`. |
| `CredentialStore.PathForServiceOf` | src-tauri/credentials_manager.rs:61 | Any path of the shape `credentials/<s>.json` is `PathFor(s)`. |
| `CredentialStore.PathForInjective` | src-tauri/credentials_manager.rs:32 | Two different services never share a file. |
| `CredentialStore.FirstFailing` | src-tauri/credentials_manager.rs:26-32 | Returns the first failing step in the order of the `?` chain. It returns none exactly when no step fails. |
| `CredentialStore.Fetch` | src-tauri/credentials_manager.rs:41-54 | A record is found exactly when the service's file exists. In a well-formed directory its `service` field equals the name asked for. |
| `CredentialStore.Store` | src-tauri/credentials_manager.rs:20-32 | A save creates or overwrites exactly the file of `c.service`. |
| `CredentialStore.Erase` | src-tauri/credentials_manager.rs:61-66 | A delete removes exactly the file of the service, if it exists. |
| `CredentialStore.StoreKeepsWellFormed` | src-tauri/credentials_manager.rs:20-32 | After a save, every file still holds the record of the service it is named after. |
| `CredentialStore.EraseKeepsWellFormed` | src-tauri/credentials_manager.rs:64-66 | After a delete, every file still holds the record of the service it is named after. |
| `CredentialStore.SaveThenGet` | src-tauri/credentials_manager.rs:20-54 | Saving `(s, u, p)` and then getting `s` returns `Some(Credentials(u, p, s))`. |
| `CredentialStore.SaveReplaces` | src-tauri/credentials_manager.rs:32 | A second save for the same service leaves the same directory as the second save alone. Nothing of the first record survives. |
| `CredentialStore.SaveLeavesOthers` | src-tauri/credentials_manager.rs:32 | Saving service `s` leaves the record of every other service as it was. |
| `CredentialStore.DeleteThenGet` | src-tauri/credentials_manager.rs:61-69 | Once the service's file is removed, there is no record for that service. |
| `CredentialStore.DeleteIdempotent` | src-tauri/credentials_manager.rs:64-69 | Deleting an absent service leaves the directory unchanged. Deleting twice is the same as deleting once. |
| `CredentialStore.DeleteLeavesOthers` | src-tauri/credentials_manager.rs:61-66 | Deleting service `s` leaves the record of every other service as it was. |
| `CredentialStore.Directory.SaveCredentials` | src-tauri/credentials_manager.rs:14-35 | Result: the first failure among serialize, create-dir and write. On `Ok`, the directory is `Store` of the old one with `Credentials(username, password, service)`. On `Err`, it is unchanged. The well-formedness invariant is kept. |
| `CredentialStore.Directory.GetCredentials` | src-tauri/credentials_manager.rs:38-55 | A missing file, or unreadable metadata, gives `Ok(None)`. Otherwise: the first failure among read and parse, or `Ok(Some(record))` with `record.service == service`. |
| `CredentialStore.Directory.DeleteCredentials` | src-tauri/credentials_manager.rs:58-70 | An absent file gives `Ok(())` and no change. Otherwise a remove fault gives `Err` and no change; else the directory is `Erase` of the old one. The invariant is kept. |
| `LoginScript.ServiceNamed` | src-tauri/credentials_manager.rs:79-130 | Only the exact strings `"gemini"` and `"poe"` name a service, and the service's name is the string given. |
| `LoginScript.GenerateLoginScript` | src-tauri/credentials_manager.rs:73-134 | `Err` exactly for names other than `"gemini"` and `"poe"`, with the unsupported-service message. Otherwise `Ok` of that service's template filled with the username and password. |
| `LoginScript.UnspliceFill` | src-tauri/credentials_manager.rs:90-91 | The credentials go in verbatim. Slicing the two slots out of a filled template gives back exactly the username and password. |
| `LoginScript.FillUnsplice` | src-tauri/credentials_manager.rs:115-116 | Any text whose slots can be sliced out is the template filled with those slices. |
| `LoginScript.TemplatesQuoteSlots` | src-tauri/credentials_manager.rs:90-91 | In both templates each slot is inside a pair of `"` characters. |
| `LoginScript.CredentialsQuotedInOrder` | src-tauri/credentials_manager.rs:88-103 | The username sits at the end of the prefix, between quotes. The password comes after it, also between quotes. |
| `LoginScript.SelectorsInPrefix` | src-tauri/credentials_manager.rs:84-86 | The email, password and submit selectors occur in this order in the text before the username. |
| `LoginScript.SelectorsInScript` | src-tauri/credentials_manager.rs:109-111 | The three selectors occur at the same places in every filled script, and all of them come before the username. |
| `LoginScript.SelectorTexts` | src-tauri/credentials_manager.rs:84-111 | Gemini uses `input[type="email"]` and `input[type="password"]`. Poe uses `input[name="email"]` and `input[name="password"]`. Both use `button[type="submit"]`. |
| `LoginScript.PrefixesDifferOnlyInAttribute` | src-tauri/credentials_manager.rs:81-127 | The two template prefixes have the same length. They differ only in two four-letter windows, which hold `type` for gemini and `name` for poe. |
| `LoginScript.ScriptsDifferOnlyInAttribute` | src-tauri/credentials_manager.rs:80-129 | For the same credentials, the gemini and poe scripts agree everywhere except at those two windows. |
| `LoginScript.UnescapedSpliceIsAmbiguous` | src-tauri/credentials_manager.rs:90-91 | Without escaping, a script does not determine its credentials. The username `a<middle>b` with password `c` fills to the same text as `a` with `b<middle>c`. |
| `LoginScript.LoginScriptIsAmbiguous` | src-tauri/credentials_manager.rs:103 | The same ambiguity holds for `generate_login_script` on `"gemini"` and on `"poe"`. |

## Left out

- The JSON encoding and decoding: a file holds its decoded record. Serialisation and parse failures exist only as the `Serialize` and `Parse` faults.
- The error strings of I/O and serde (`e.to_string()`): an error names only the step that failed.
- `CredentialStore.Directory.SaveCredentials`: a failed `fs::write` is modelled as leaving the store unchanged. A real failed write may leave the file truncated or partly written.
- The `credentials` directory itself, `create_dir_all` apart from its failure, and path normalisation. A service name containing `/` or `..` would not map to a distinct file on a real filesystem. The model keeps names apart at the string level only.
- Files changed by anything other than these three commands: the model assumes every file holds the record of its own service. A hand-edited file whose `service` field differs from its name is not modelled.
- Running the generated script (DOM queries, the 500 ms `setTimeout`, `click()`): it is JavaScript runtime behaviour, so only the produced text is modelled.
- `src-tauri/browser_emulation.js` and `src-tauri/src/init_script.js`: they only patch browser globals, and their meaning depends on a JavaScript runtime.
- `src-tauri/icon_generator.rs`: floating-point geometry and PNG writing through an image library.
- `src-tauri/src/main.rs` and `src-tauri/src/webview_handler.rs`: thin framework wrappers with no logic.
- The window, tray, focus and auto-login handling of the application: it lives outside `credentials_manager.rs` and is not modelled.

# page, modelled in Dafny

`page` is a small command-line password manager. Its entries are kept in a map from entry name to `Entry` (password, optional user name, optional URL). The map is stored in one file, `entries.toml.age`: a TOML table encrypted with an age passphrase. The commands run in a fixed order, stopping at the first failure:

1. Run the optional `pre_load` hook script.
2. Obtain the passphrase, from the OS keyring or from a prompt.
3. Load the map.
4. Change the map in memory.
5. Save it.
6. Run the optional `post_save` hook.

`init` creates the store, and `show` and `list` only read it. A KeePass tree can be flattened into such a map.

The model has one module per source file:

| module | file | source |
|---|---|---|
| `Errors` | `errors.dfy` | error kinds and their fixed messages |
| `Paths` | `paths.dfy` | `src/paths.rs`: the storage folder comes from `PAGE_STORAGE_FOLDER`, else from the per-user data directory, else it is an error; the entries file and the hooks directory are joined under it |
| `Utilities` | `utilities.dfy` | `src/utilities.rs`: the cipher as a pair of abstract functions; `str::trim`; `read_stdin`; the keyring/prompt precedence of `get_passphrase` and `get_passphrase_keyring` |
| `Hooks` | `hooks.dfy` | `src/hooks.rs`: hook and event names, `str::lines`, and `run_hook` as a method proved against the protocol function `HookSpec` |
| `Entries` | `entries.dfy` | `src/entries.rs`: `load_entries` and `save_entries` as `Decode` and `Encode` over an abstract TOML codec |
| `KeePass` | `keepass.dfy` | `src/keepass.rs`: `keepass_entries` as a recursive method that threads the map, proved against a reference flattening of the tree |
| `Commands` | `commands.dfy` | `src/commands.rs`: each command is a method of the class `Page`, whose fields are the files, directories, keyring, standard output, clipboard, entry map and a ghost milestone trace. Each method is proved equal to, or related by a stated predicate to, a step specification over a `World` value: `List` and `PrintNames` are related to their specification by `Listed` and `Enumerates`, and the others are equal to their step function. |
| `CommandLaws` | `command_laws.dfy` | what the commands promise, proved about those step functions |

How the outside world is modelled:
- The terminal's answers and the captured output of the hook processes are inputs (`Answers`, `ProcessOutput`).
- The cipher and the codec are function-typed fields (`Cipher`, `Format`).
- The properties the code relies on are predicates, taken as preconditions of the lemmas that need them:
  - what age encrypts decrypts with the same passphrase, and is never empty;
  - it does not decrypt with another passphrase;
  - what TOML serializes parses back;
  - the empty text parses as the empty table (`format.parse("") == Some(EmptyStorage)`), which `CommandLaws.InitThenLoad` needs.
- The environment variables and the data directory are the `Env` value.
- The OS keyring entry is a `Keyring` value.

The ordering of steps is stated on the ghost trace of milestones (`HookCalled`, `PassphraseRead`, `Loaded`, `Saved`, `FileCreated`): the milestones a run adds are a prefix of a fixed script. For `new_entry`, `edit` and `remove` the script is pre_load, passphrase, load, save, post_save.

Some behaviour of the code worth knowing when reading the model:
- `init` first creates a zero-length entries file. It then asks for the passphrase and saves the encrypted empty table over that file (`src/commands.rs:14-18`). The zero-length file remains whenever `init` stops before the save: the passphrase is refused, the codec fails or the cipher fails. Either way the file loads as the empty store (`CommandLaws.InitThenLoad`).
- A hook fails if it cannot be started, if its output is not UTF-8, or if it exits unsuccessfully (`src/hooks.rs:52-69`).
- The not-found message is `entry '<name>' not found` (`src/commands.rs:108`). The prompts are `Password for '<name>': ` and `Entry '<name>' already exists. Overwrite (y/N)?`. These are the strings the code prints, not the older ones that the integration tests expect.

## Model

| member | source | states |
|---|---|---|
| Errors.NotFoundMessageShape | src/commands.rs:108 | the missing-entry error names the entry inside quotes before "not found" (`entry '404' not found`) |
| Paths.StorageDir | src/paths.rs:6-17 | when set, the override variable is returned verbatim; otherwise the data directory; an error (NoStorageFolder) exactly when neither exists |
| Paths.Join | src/paths.rs:20-25 | a joined path starts with the folder and ends with the joined name |
| Paths.EntriesFile | src/paths.rs:20-25 | fails exactly when the storage folder cannot be determined |
| Paths.HooksDir | src/paths.rs:28-33 | fails exactly when the storage folder cannot be determined |
| Paths.JoinInjective | src/paths.rs:20-33 | joining different names onto one folder gives different paths |
| Paths.EntriesFileAndHooksDir | src/paths.rs:20-33 | the entries file is the folder joined with `entries.toml.age` and the hooks directory is the folder joined with `hooks`; they differ; under the override the entries file starts with its value |
| Paths.HookPathIsNotEntriesFile | src/hooks.rs:45-48 | no hook script path is the entries file |
| Utilities.Trim | src/utilities.rs:77 | the trimmed line neither starts nor ends with whitespace and is no longer than the input |
| Utilities.TrimSlice | src/utilities.rs:77 | trimming keeps one contiguous piece of the input and removes only whitespace on either side of it |
| Utilities.TrimEmpty | src/utilities.rs:77 | a line trims to nothing exactly when it is all whitespace |
| Utilities.TrimIdempotent | src/utilities.rs:77 | trimming twice equals trimming once |
| Utilities.ReadStdin | src/utilities.rs:72-79 | a failed read is PromptFailed; otherwise the result is the trimmed line |
| Utilities.AcceptsExactly | src/commands.rs:40 | an upper-cased answer equals "Y" exactly for "y" and "Y" |
| Utilities.PaddedYesAccepts | src/utilities.rs:72-79 | the line " y \n" reads as "y", which confirms |
| Utilities.EmptyLineRefuses | src/commands.rs:36-42 | an empty line reads as "", which declines |
| Utilities.GetPassphraseKeyring | src/utilities.rs:44-60 | a stored keyring value is returned after one read, with no prompt. Otherwise the prompt runs: an unanswered prompt is PromptFailed; a typed answer is stored and returned when the keyring is writable, and is KeyringStoreFailed when it is not. The keyring changes only by that store |
| Utilities.GetPassphrase | src/utilities.rs:62-70 | with the keyring off: one prompt "Enter passphrase: ", no keyring access, the typed value or PromptFailed; with it on: the keyring resolution |
| Utilities.PassphrasePrecedence | src/utilities.rs:44-70 | the keyring is read iff it is enabled, and then first; the prompt runs iff the keyring is off or empty; only a prompted value is written, and only when the keyring is enabled; the value returned is the stored one or the typed one; the resolution succeeds iff a value was stored, or a value was typed and either the keyring is off or the keyring is writable |
| Hooks.NamesAreDistinct | src/hooks.rs:14-41 | the hooks are named `pre_load` and `post_save`; the two hook names differ, and so do the five event names |
| Hooks.Lines | src/hooks.rs:60-65 | no line contains a newline |
| Hooks.LinesRebuild | src/hooks.rs:60-65 | for output without carriage returns, the lines with their newlines put back give the output, plus a final newline when it had none |
| Hooks.CarriageReturns | src/hooks.rs:60-65 | a line ended by `\r\n` loses both characters; a `\r` not followed by a newline stays in the line |
| Hooks.RunHook | src/hooks.rs:44-73 | `run_hook` equals the protocol `HookSpec`: look up the script, print the banner, start it, check UTF-8, echo stdout then stderr, check the exit status |
| Hooks.EchoLines | src/hooks.rs:60-65 | the lines are echoed in order, each as "<name>: <line>", after what was already printed |
| Hooks.AbsentHookIsNoop | src/hooks.rs:49 | a missing script succeeds, echoes nothing and starts nothing |
| Hooks.HookInvocation | src/hooks.rs:52-55 | a started process is the hook's script, which exists, started with the single argument of the event name, in the storage folder |
| Hooks.EchoOrder | src/hooks.rs:50-69 | echoed: the banner "Running <name> hook", then each stdout line, then each stderr line, each tagged with the name; the hook fails iff the exit was unsuccessful, with "<name> hook failed", after all lines |
| Hooks.EchoedOnSuccess | src/hooks.rs:60-69 | with valid output, the echoed lines are the banner and the two tagged streams, and the outcome is the exit status |
| Hooks.InvalidOutputFailsFirst | src/hooks.rs:57-58 | non-UTF-8 output fails before the status is looked at, after only the banner |
| Entries.Decode | src/entries.rs:26-46 | absent file is NotInitialized (iff); zero-length file is the empty store; DecryptFailed iff decryption fails; after a successful decryption, InvalidUtf8 iff the UTF-8 step fails, then ParseFailed iff parsing fails, and otherwise the parsed table; conversely a success is decrypt, then UTF-8, then parse |
| Entries.Encode | src/entries.rs:48-50 | success iff both serialize and encrypt succeed, and then the bytes are the encrypted serialization; otherwise SerializeFailed or EncryptFailed, for the step that failed |
| Entries.LoadAfterSave | src/entries.rs:35-52 | loading what was saved, with the same passphrase, gives the same store |
| Entries.LoadWithOtherPassphrase | src/entries.rs:40-41 | a saved store fails to decrypt with another passphrase |
| Entries.EmptyFileNeedsNoCipher | src/entries.rs:35-38 | the zero-length file is the empty store whatever the passphrase, cipher and codec |
| KeePass.KeepassEntries | src/keepass.rs:42-78 | the walk leaves the map equal to the input map with the tree's insertions applied in visiting order |
| KeePass.FromKeepass | src/keepass.rs:36-38 | the import starts from an empty map and walks the root group under the given prefix |
| KeePass.ImportsAreLiftedEntries | src/keepass.rs:47-77 | the insertions are exactly the tree's password-bearing entries, depth first, each named prefix/groups/title and with its fields copied |
| KeePass.ImportIntoMap | src/keepass.rs:67-74 | names already in the map that the tree does not produce keep their entries; a produced name holds the fields of the last entry producing it; no more names are added than there are password-bearing entries |
| KeePass.PrefixLeads | src/keepass.rs:50-53 | with a prefix, every imported name starts with the prefix followed by "/" |
| KeePass.RootEntryName | src/keepass.rs:57-65 | with no prefix, every password-bearing entry directly under the root is imported under its title, or under its uuid when it has no title |
| KeePass.EntryImported | src/keepass.rs:56-74 | every password-bearing entry directly in the visited group is inserted under its path name, with its fields copied |
| KeePass.PasswordlessSkipped | src/keepass.rs:67 | an entry without a password adds no insertion: a group that ends with such an entry imports exactly as the group without it, into any map |
| KeePass.TwoEntriesInOneGroup | src/keepass.rs:84-123 | a group "Group" with entries A and B imports as "Group/title_A" and "Group/title_B" with their passwords, user names and URLs |
| Commands.Page.FireHook | src/hooks.rs:44-73 | running a hook appends its echoed lines and its milestone, and returns its outcome |
| Commands.Page.ObtainPassphrase | src/utilities.rs:62-70 | resolving the passphrase updates the keyring, prints the prompt when one was shown and records the milestone |
| Commands.Page.LoadEntries | src/entries.rs:26-46 | on success the map in memory is replaced by the decoded file; on failure it is left as it was |
| Commands.Page.SaveEntries | src/entries.rs:48-54 | the entries file is overwritten with the encoded map; the map itself is unchanged |
| Commands.Page.Confirm | src/commands.rs:36-40 | the overwrite question is printed, and the answer is whether the trimmed line confirms |
| Commands.Page.AskPassword | src/commands.rs:45-48 | the password prompt is printed, and the typed password or PromptFailed is returned |
| Commands.Page.Reveal | src/utilities.rs:81-89 | the value is printed as a line when shown on screen, and otherwise put on the clipboard |
| Commands.Page.OpenStore | src/commands.rs:31-33 | pre_load hook, then passphrase, then load, stopping at the first failure |
| Commands.Page.CommitStore | src/commands.rs:59-60 | save, then the post_save hook only if the save succeeded |
| Commands.Page.Init | src/commands.rs:10-23 | the new state and the outcome are those given by `InitSpec` |
| Commands.Page.NewEntry | src/commands.rs:25-63 | the new state and the outcome are those given by `NewEntrySpec` |
| Commands.Page.NewEntryAfterLoad | src/commands.rs:35-62 | after the load: confirmation for a taken name, then the password prompt, the insert and the commit |
| Commands.Page.List | src/commands.rs:65-74 | after a successful open, every entry name is printed once and nothing else changes; a failed open is its error |
| Commands.Page.PrintNames | src/commands.rs:70-72 | the loop prints each key of the map once, in some order, and changes nothing else |
| Commands.Page.Show | src/commands.rs:76-112 | the new state and the outcome are those given by `ShowSpec` |
| Commands.Page.Edit | src/commands.rs:114-179 | the new state and the outcome are those given by `EditSpec` |
| Commands.Page.EditAfterLoad | src/commands.rs:126-149 | after the load: take the entry out (NotFound if missing), settle the new name with its collision question, then store |
| Commands.Page.StoreEdited | src/commands.rs:151-176 | the edited entry is stored under the settled name and committed |
| Commands.Page.Remove | src/commands.rs:181-193 | the new state and the outcome are those given by `RemoveSpec` |
| CommandLaws.HookStepFrame | src/hooks.rs:44-73 | a hook changes no file, directory, keyring, clipboard or entry, and adds its milestone |
| CommandLaws.PassphraseStepFrame | src/utilities.rs:62-70 | resolving the passphrase changes no file, directory, clipboard or entry |
| CommandLaws.LoadStepFrame | src/entries.rs:26-46 | loading changes no file, directory or clipboard; on success the map is the decoded file |
| CommandLaws.OpenFacts | src/commands.rs:31-33 | opening follows pre_load, passphrase, load; changes no file; on success the map is the decoded entries file |
| CommandLaws.OpenTrace | src/commands.rs:31-33 | opening adds a prefix of pre_load, passphrase, load, and on success all three |
| CommandLaws.OpenLoad | src/commands.rs:33 | opening changes no file, directory or clipboard, and on success the map is the decoded file |
| CommandLaws.CommitFacts | src/commands.rs:59-60 | committing saves and runs post_save only after a completed save; the only file written is the entries file, holding the encoded map, which is unchanged in memory |
| CommandLaws.StoppedEarly | src/commands.rs:31-33 | a command that stopped while opening wrote no file |
| CommandLaws.OpenedThenCommitted | src/commands.rs:31-60 | opening and then committing follows the whole mutation script and writes only the final map |
| CommandLaws.NewEntryStoreFacts | src/commands.rs:45-60 | if anything is saved, the saved map sets exactly the new name; the password prompt comes first; a success ran the whole commit |
| CommandLaws.NewEntryLoadedFacts | src/commands.rs:35-60 | after the load, `new_entry` commits or stops without writing; a success without a save was a taken name |
| CommandLaws.EditStoreFacts | src/commands.rs:151-176 | the stored entry takes the given user name and URL or the old ones, and the old password with no-prompt or the typed one |
| CommandLaws.EditLoadedFacts | src/commands.rs:126-176 | after the load, `edit` commits or stops without writing; a success without a save was a rename onto another taken name |
| CommandLaws.NewEntryDiscipline | src/commands.rs:31-60 | `new_entry` adds a prefix of pre_load, passphrase, load, save, post_save; what it writes is the final map, encrypted with the passphrase that opened the store |
| CommandLaws.EditDiscipline | src/commands.rs:122-176 | the same order and write discipline for `edit` |
| CommandLaws.RemoveDiscipline | src/commands.rs:182-190 | the same for `remove`; a success always saved |
| CommandLaws.RemoveLoadedFacts | src/commands.rs:185-190 | after the load, a present name is removed and committed, and an absent one is NotFound with nothing changed |
| CommandLaws.ReloadAfterWrite | src/entries.rs:40-52 | after a completed save, loading with the same passphrase gives back the map the command ended with |
| CommandLaws.NewEntryOnAbsentName | src/commands.rs:50-57 | a new name adds exactly that key, with the typed password and the given user name and URL |
| CommandLaws.NewEntryOverwriteAccepted | src/commands.rs:35-57 | a confirmed overwrite replaces that one entry, keeps the set of names, and asks before the password prompt |
| CommandLaws.NewEntryOverwriteDeclined | src/commands.rs:35-42 | a declined overwrite succeeds without a save, a post_save hook or a password prompt, and the map is unchanged |
| CommandLaws.EditMissing | src/commands.rs:126-129 | editing a missing name is NotFound, and nothing happens after the load |
| CommandLaws.EditInPlace | src/commands.rs:151-173 | without a rename, the entry is replaced in place by its edited version |
| CommandLaws.EditRenameToFreeName | src/commands.rs:131-173 | a rename onto a free name moves the edited entry there and drops the old name |
| CommandLaws.EditRenameCollisionAccepted | src/commands.rs:134-173 | a confirmed rename onto a taken name asks first, replaces that entry and drops the old name, leaving one entry fewer |
| CommandLaws.CollisionConfirmed | src/commands.rs:134-141 | a confirmed collision stores under the new name, in the map without both names, after the question |
| CommandLaws.EditRenameCollisionDeclined | src/commands.rs:134-144 | a declined collision succeeds without a save or a post_save hook |
| CommandLaws.EditSameNameNeverPrompts | src/commands.rs:134 | renaming an entry to its own name is the same as not renaming it |
| CommandLaws.RemovePresent | src/commands.rs:185-187 | removing a present name deletes that key only |
| CommandLaws.RemoveAbsent | src/commands.rs:185-190 | removing an absent name is NotFound, with no save |
| CommandLaws.ShowIsReadOnly | src/commands.rs:82-111 | `show` writes no file and changes no entry; a missing name is NotFound; otherwise it reveals the password always, and the user name or URL only when present, on screen or on the clipboard |
| CommandLaws.ShowLoadedFacts | src/commands.rs:86-109 | after the load, `show` changes only the screen or the clipboard, by the attribute it reveals |
| CommandLaws.ListedNamesOnly | src/commands.rs:70-72 | `list` prints one line per entry, each an entry name, and changes no file, entry or milestone |
| CommandLaws.InitWhenPresent | src/commands.rs:19-21 | with the entries file present, `init` only says so |
| CommandLaws.InitWhenAbsent | src/commands.rs:13-18 | otherwise it creates the folder and a zero-length file, announces it, asks for the passphrase and saves the empty table over the file |
| CommandLaws.InitThenLoad | src/commands.rs:13-18 | what `init` leaves loads as the empty store: with any passphrase whenever it stopped before the save (refused passphrase, codec or cipher failure), and with its passphrase after a completed run |

## Left out

- The cipher's and the codec's internals (`src/utilities.rs:8-35`): age and TOML are foreign libraries. They are abstract functions, and the round-trip and authentication properties are assumed as predicates.
- A container encrypted to recipients rather than to a passphrase (`src/utilities.rs:22`): the program panics on it, and the model reports it as DecryptFailed, because the abstract cipher only answers whether decryption succeeds.
- I/O failures of the terminal: the model does not include the failure of flushing standard output before a line is read (`src/utilities.rs:74`).
- I/O failures of the filesystem, and partial writes: reading, creating and writing files cannot fail in the model. `save_entries` truncates the file and writes it, so it is not atomic, and the model makes no atomicity claim.
- A directory at the path of the entries file: `init` treats it as existing, as the code does. When loading, the model reports it as not initialized, whereas the program fails with a read error.
- Commands.Page.Init: `create_dir_all` also creates ancestor folders; the model adds only the storage folder to the directory set.
- `reveal`: clipboard failures are not modelled; putting a value on the clipboard always succeeds.
- What a hook script does besides its output: it is a process, and only its captured output and exit status are inputs.
- Utilities.ToUpper: maps only the ASCII letters. `to_uppercase` maps all of Unicode, but only "y" and "Y" upper-case to "Y", so the confirmation is the same.
- Commands.Page.List: `HashMap` iteration order is unspecified, so the model enumerates the keys in an arbitrary order.
- The keyring backend and `whoami`: the keyring entry is a value. The service name and user name that select it are not modelled.
- Terminal echo suppression of the hidden prompts: the prompts are printed lines in the model, with their answers as inputs.
- The KeePass credential variants and opening the database (`src/keepass.rs:20-35`): this is foreign I/O. The model starts from the opened root group.
- `info`, `keyring_check` and `keyring_forget` (`src/commands.rs:195-229`): status printing and keyring wrappers.
- `src/cli.rs` and `src/main.rs`: argument parsing and dispatch. The error text main prints is not part of the model.
- The integration tests' prompt and error strings: they disagree with the code, which the model follows.

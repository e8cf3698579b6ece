# Login validation and selection filter of the RESTful interface tool's `login` command

This project models the two pieces of `LoginCommand` (the `login` command of the
HPE RESTful Interface Tool, Python 2) that contain logic of their own:

* **`loginvalidation`**: the command object keeps `url`, `username`,
  `password` and `biospassword` between calls. A validation does four things in order:
  1. It fills each unset or empty credential option (`user`, `password`, `biospassword`) from the
     configuration file.
  2. It asks for a password when a user name is known but no password is. An empty answer raises
     `InvalidCommandLineError`.
  3. It copies each non-empty credential into the command object.
  4. It chooses the URL. With no positional argument this is the configured URL if there is one,
     else `blobstore://.`, the local interface. With an argument it is that argument, prefixed with
     `https://` unless `https://` occurs in it already. With an argument, the validation then raises
     `InvalidCommandLineError` if the command holds no username or no password.

  It is modelled as the class `Login.LoginCommand` with its four fields, and
  the options as the class `Login.LoginOptions`, whose fields the validation rewrites.
  `LoginCommand.LoginValidation` is proved equal, in its effect on both objects and in the error it
  raises, to the specification function `Login.Validate`. The lemmas beside it state what the
  command promises.
* **The selection filter** handed to `select` by `loginfunction`. `--filter attribute=value` must
  split on `=` into exactly two parts. Both parts are stripped of whitespace. A value that reads
  `true` or `false` in any case becomes a boolean, and any other value stays text. Anything raised in
  the selection block leaves it as `InstanceNotFoundError`, so the format error is reported wrapped
  in that exception. This part is modelled as pure functions in `LoginFilter`.

Module `Text` models the Python 2 string operations the command uses.
1. The substring test `in`, proved equal to "occurs at some position".
2. `split` on one character, proved inverse to `join` in both directions, with one more piece than
   there are separators.
3. `strip()`, proved to remove exactly a leading and a trailing run of whitespace and to be
   idempotent.
4. `lower()`.

A Python 2 `str` is a byte string, so `strip()` removes the six ASCII whitespace characters and
`lower()` changes only `A`..`Z`. The model does the same.

The configuration lookups (`config.get_username()`, `get_password()`, `get_bios_password()` and
`get_url()`) become the `Config` parameter. The interactive `getpass.getpass()` answer becomes the
`entered` parameter, which is read only when the source would prompt. `select(query, sel, val)` is
represented by the `Selection` value its arguments form.

Files: `wrappers.dfy` (Option, Result, Outcome), `errors.dfy` (the exceptions and their messages),
`text.dfy`, `login_validation.dfy`, `login_filter.dfy`.

## Model

| member | source | states |
|---|---|---|
| `Login.LoginCommand.LoginValidation` | src/extensions/COMMANDS/LoginCommand.py:117-169 | the options' credentials, the command's four fields and the raised error, if any, are exactly those `Validate` gives for the entry state, including the state left behind on each of the two error paths |
| `Login.LoginOptions.FillMissingFromConfig` | src/extensions/COMMANDS/LoginCommand.py:125-131 | each unset or empty credential option takes the configuration's value; the others keep theirs |
| `Login.LoginCommand.AdoptCredentials` | src/extensions/COMMANDS/LoginCommand.py:144-151 | each field of the command takes the option's value when that value is set and non-empty, and otherwise keeps its own; the URL is unchanged |
| `Login.LoginCommand.constructor` | src/extensions/COMMANDS/LoginCommand.py:44-47 | a new command holds no URL and no credentials |
| `Login.CommandLineCredentialsKept` | src/extensions/COMMANDS/LoginCommand.py:126-131 | a non-empty command-line user, password or BIOS password is never overwritten; an unset or empty user or BIOS password becomes the configured one, and an unset password becomes the configured one when that is non-empty, or when no user is known |
| `Login.PasswordPrompt` | src/extensions/COMMANDS/LoginCommand.py:134-142 | with a user and no password after filling, an empty entry raises `InvalidCommandLineError("Empty or invalid password was entered.")`, if and only if it is empty, and leaves the command's fields untouched; a non-empty entry becomes the option's and the command's password |
| `Login.NoPromptOtherwise` | src/extensions/COMMANDS/LoginCommand.py:134-142 | in every other case the result does not depend on the interactive entry and the empty-password error is not raised |
| `Login.FieldsTakeOnlyNonEmptyCredentials` | src/extensions/COMMANDS/LoginCommand.py:144-151 | every credential field either keeps its previous value or takes a non-empty option value; past the password entry it takes the option value if and only if that value is non-empty |
| `Login.UrlWithoutArgument` | src/extensions/COMMANDS/LoginCommand.py:153-169 | with no positional argument the validation fails only at the password entry; the URL is the configured one when set, else exactly `blobstore://.`, with no `https://` added and no credential check |
| `Login.UrlArgument` | src/extensions/COMMANDS/LoginCommand.py:156-165 | with a positional argument the URL always contains `https://`; it is the argument itself when `https://` occurs anywhere in it, else `https://` followed by it; normalising it again changes nothing; `InvalidCommandLineError("Empty username or password was entered.")` is raised if and only if the command's username or password is empty |
| `Login.EarlierCredentialsSatisfyUrlCheck` | src/extensions/COMMANDS/LoginCommand.py:163-165 | the URL check reads the command's fields, so a username and password kept from an earlier validation let a URL through when neither options nor configuration supply them |
| `Login.NormalizeUrl` | src/extensions/COMMANDS/LoginCommand.py:158-162 | the result contains `https://`; it is the input when the input contains `https://` anywhere (a substring test), else `https://` + input; the input is always a suffix of the result |
| `Login.NormalizeUrlIdempotent` | src/extensions/COMMANDS/LoginCommand.py:161-162 | normalising twice equals normalising once |
| `LoginFilter.SelectionRequest` | src/extensions/COMMANDS/LoginCommand.py:92-115 | without a selector nothing is selected; without a filter the selector is used with no attribute and no value; with a filter the attribute and value handed to `select` are exactly the stripped attribute and coerced value `ParseFilter` gives; it fails exactly when a selector and a filter are given and the filter does not hold exactly one `=`, and every failure is `InstanceNotFoundError` wrapping the format error |
| `LoginFilter.ParseFilter` | src/extensions/COMMANDS/LoginCommand.py:97-107 | rejected with `InvalidCommandLineError("Invalid filter parameter format. [filter_attribute]=[filter_value]")` if and only if the filter does not hold exactly one `=`; an accepted attribute and text value have no whitespace at either end |
| `LoginFilter.ParseFilterOfPair` | src/extensions/COMMANDS/LoginCommand.py:99-104 | any attribute and value free of `=`, joined by `=`, parse to the stripped attribute and the coerced stripped value |
| `LoginFilter.ParseFilterSplitsAtEquals` | src/extensions/COMMANDS/LoginCommand.py:99-104 | every filter with exactly one `=` is such an attribute, `=` and value, and parses accordingly |
| `LoginFilter.CoerceValue` | src/extensions/COMMANDS/LoginCommand.py:103-104 | the value becomes a boolean if and only if it reads `true` or `false` ignoring case; the boolean is true exactly for `true`; any other value is kept unchanged as text |
| `LoginFilter.CoerceValueExamples` | src/extensions/COMMANDS/LoginCommand.py:103-104 | `TRUE` and `False` become booleans, while `yes` and `1`, although in the membership tuple, stay text |
| `Text.Split` | src/extensions/COMMANDS/LoginCommand.py:99 | `split` always yields at least one piece |
| `Text.SplitPieces` | src/extensions/COMMANDS/LoginCommand.py:99 | there is one piece more than there are separators, and no piece contains the separator |
| `Text.JoinOfSplit` | src/extensions/COMMANDS/LoginCommand.py:99 | joining the pieces of a split with the separator gives back the string |
| `Text.SplitOfJoin` | src/extensions/COMMANDS/LoginCommand.py:99 | splitting a join of separator-free pieces gives back the pieces |
| `Text.ContainsIffOccurs` | src/extensions/COMMANDS/LoginCommand.py:161 | the substring test holds if and only if the pattern occurs at some position of the string |
| `Text.ContainsPrefixed` | src/extensions/COMMANDS/LoginCommand.py:161-162 | a string that begins or ends with a pattern contains it, so the prefixed URL passes the test |
| `Text.StripLeftDropsLeadingSpace` | src/extensions/COMMANDS/LoginCommand.py:100-101 | left stripping removes exactly a leading run of whitespace and stops at a non-space character |
| `Text.StripRightDropsTrailingSpace` | src/extensions/COMMANDS/LoginCommand.py:100-101 | right stripping removes exactly a trailing run of whitespace and stops at a non-space character |
| `Text.StripIsTrimmedInfix` | src/extensions/COMMANDS/LoginCommand.py:100-101 | `strip()` returns the infix left after removing a leading and a trailing whitespace run, and that infix neither begins nor ends with whitespace |
| `Login.Validate` | src/extensions/COMMANDS/LoginCommand.py:117-169 | the specification of the whole validation: it raises only the empty-password or the empty-credentials error; on success the URL is set, and with a URL argument the command then holds a non-empty username and password |
| `Login.PromptPassword` | src/extensions/COMMANDS/LoginCommand.py:134-142 | the entry fails, with the empty-password message, if and only if a user is known, no password is, and the entry is empty; otherwise user and BIOS password are unchanged, a given password is kept, and with a user a non-empty password results |
| `Text.Strip` | src/extensions/COMMANDS/LoginCommand.py:100-101 | the stripped string is no longer than the input and neither begins nor ends with whitespace |
| `Text.Lower` | src/extensions/COMMANDS/LoginCommand.py:103 | same length; no upper-case ASCII letter remains, and each character is either unchanged or an upper-case letter replaced by its lower-case counterpart |
| `Text.StripIdempotent` | src/extensions/COMMANDS/LoginCommand.py:100-101 | stripping twice equals stripping once |

## Left out

- `loginfunction` outside the selection block: argument parsing and its `-h`/`--help` handling, `app.getgen`, `updatedefinesflag`, `app.login` and the cache and logger warnings written to standard output. These are session and transport behaviour in code that is not part of this model, or output only.
- `app.select` itself: the model produces the query, attribute and value it is called with. An exception raised inside `select` would also leave the block as `InstanceNotFoundError`. That is not modelled, because `select` is not part of this model.
- `run`, including the `_visited_urls` check and the logout at lines 180-183: they depend on the session's monolith, which is not part of this model.
- `definearguments`: the option definitions of the command-line parser. Only their default, `None`, appears, as `Option.None`.
- `getpass.getpass()` is interactive input. Its answer is the `entered` parameter.
- `get_url()` is called twice at lines 168-169. The model assumes that both calls return the same value.
- Python 3 / Unicode strings: the model follows Python 2 byte-string `strip()` and `lower()`, as the source's `except Exception, excp` syntax implies.
- The inner `except` at line 105 also catches a filter that is not a string. Option values are always strings or `None`, so the model does not represent that case.
- src/extensions/COMMANDS/CommitCommand.py: a sequence of calls into the session object, with no logic of its own beyond raising when the commit fails.
- src/extensions/iLO COMMANDS/ServerlogsCommand.py (log services, pagination, partition mounting, catalog parsing, archive building) is not part of this model.

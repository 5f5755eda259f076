# scenarigo version string, in Dafny

scenarigo reports its own version through `version.String()`. The package
holds two strings: `version` (default "0.1.0") and `revision` (default "dev").
`String()` returns "v" followed by the version. When the revision is not
empty, it also appends "-" and the revision.

`version.dfy` (module `Version`) models this as the pure function
`VersionString(version, revision)`. The two package variables become its
parameters, and their defaults become the constants `DefaultVersion` and
`DefaultRevision`. `DefaultString()` is `String()` with both variables left at
their defaults. Both `fmt.Sprintf` formats use only `%s`, so they are modelled
as sequence concatenation.

Two inverse functions are the formatter's partners:
- `ParseRevision(s, version)` recovers the revision when the version is known.
- `SplitVersionString(s)` recovers both parts by splitting at the first '-'
  after the leading 'v'. This works when the version contains no '-'. The
  revision may contain '-'.

Lemmas prove that each inverse undoes the formatter, and that every string it
accepts is an output of the formatter.

## Model

| member | source | states |
|---|---|---|
| `Version.VersionString` | version/version.go:9-14 | The result is 'v' followed by the whole version. Its length is 1 + \|version\| exactly when the revision is empty. Otherwise its length is 2 + \|version\| + \|revision\|, it has '-' right after the version, and it ends with the revision. |
| `Version.DefaultString` | version/version.go:5-14 | With the default `version` "0.1.0" and `revision` "dev", the result is "v0.1.0-dev". |
| `Version.ContractDeterminesString` | version/version.go:9-14 | The facts in `VersionString`'s contract pin the result down completely. Any string that meets them equals "v" + version when the revision is empty, and "v" + version + "-" + revision otherwise. |
| `Version.ParseFormatted` | version/version.go:9-14 | Given the version, the revision can be recovered from the output: `ParseRevision` returns it. |
| `Version.FormatParsed` | version/version.go:9-14 | Everything `ParseRevision` accepts is the output for that version and the revision it returns. |
| `Version.RevisionDetermined` | version/version.go:13 | For a fixed version, two revisions with the same output are equal. |
| `Version.SeparatorAmbiguous` | version/version.go:13 | Without the version, the parts cannot be told apart. Moving a '-'-separated piece from the end of the version to the front of the revision gives the same output. |
| `Version.SplitFormatted` | version/version.go:9-14 | When the version has no '-', splitting the output at its first '-' gives back both the version and the revision. |
| `Version.FormatSplit` | version/version.go:9-14 | Every string `SplitVersionString` accepts is the output for the parts it returns, and the version part has no '-'. |
| `Version.PairDetermined` | version/version.go:9-14 | Among versions without '-', equal outputs mean equal versions and equal revisions. |

## Left out

- Overwriting `version` and `revision` at build time (linker flags) is not modelled. The model takes both strings as parameters.
- That calling `String()` twice gives the same string needs no lemma. It holds because `VersionString` is a Dafny function of its two parameters, and the model cannot change them.
- Go strings are byte sequences; the model uses `string` (`seq<char>`). `%s` copies its argument unchanged, so concatenation behaves the same either way.
- `protocol/http/unmarshaler/json.go`: `MediaType` only returns the constant "application/json", and `Unmarshal` only calls `encoding/json.Unmarshal`. `encoding/json` is not part of this model, so the file has no logic of its own to verify.
- `Expect.Build` and `Assert`, which `protocol/http/expect_test.go` exercises, are not part of this model. They live in `protocol/http` and depend on the status-code/reason-phrase table of `net/http` and on the `{{vars.foo}}` template engine of the `context` package. This model covers only the `version` package.

/** The credential checker of `locustfiles/verify_api_keys.py`: rejecting unset keys,
    classifying the reply of the command-line HTTP client, reading a key out of a
    configuration file, choosing between command-line and environment keys, and the exit
    status. The client itself is not run: its reply is an input. */
module VerifyApiKeys {
  import opened Wrappers
  import opened Text

  /** The placeholder value shipped in the example configuration. */
  const Placeholder := "YOUR_API_KEY_HERE"

  /** The reply marker a successful chat-completion call contains. */
  const ChoicesMarker := "\"choices\""

  /** The prefix of an error reply of the inference API. */
  const ErrorPrefix := "{\"error"

  /** How many characters of the reply the error report shows. */
  const DetailsLength := 200

  /** The value of the `key_name` argument when none is given. */
  const DefaultKeyName := "api_key"

  /** What `subprocess.run` of the client gives: its exit code and standard output, or an
      exception (the client missing, undecodable output). */
  datatype CurlResult = Finished(returnCode: int, stdout: string) | Raised

  /** What a verification reports: the key is not set (no request is sent), it was accepted,
      the reply rejected it (with the reply's first characters), or the request raised. */
  datatype Verdict = NotSet | Valid | Rejected(details: string) | RequestFailed

  /** `not api_key or api_key == "YOUR_API_KEY_HERE"` is false: a key worth sending. */
  predicate KeyIsSet(key: Option<string>) {
    key.Some? && key.value != "" && key.value != Placeholder
  }

  /** `stdout[:200]`: the reply, cut to its first 200 characters. */
  function ErrorDetails(stdout: string): (d: string)
    ensures d <= stdout
    ensures |d| == if |stdout| <= DetailsLength then |stdout| else DetailsLength
  {
    if |stdout| <= DetailsLength then stdout else stdout[..DetailsLength]
  }

  /** `verify_openai_key`: the reply accepts the key when the client exited with 0 and its
      output contains `"choices"`. */
  function VerifyOpenAIKey(key: Option<string>, reply: CurlResult): (v: Verdict)
    ensures v.NotSet? <==> !KeyIsSet(key)
    ensures v.Valid? <==>
      KeyIsSet(key) && reply.Finished? && reply.returnCode == 0 && Contains(reply.stdout, ChoicesMarker)
    ensures v.RequestFailed? <==> KeyIsSet(key) && reply.Raised?
    ensures v.Rejected? ==> reply.Finished? && v.details == ErrorDetails(reply.stdout)
  {
    if !KeyIsSet(key) then NotSet
    else match reply
      case Raised => RequestFailed
      case Finished(code, out) =>
        if code == 0 && Contains(out, ChoicesMarker) then Valid else Rejected(ErrorDetails(out))
  }

  /** `verify_huggingface_key`: the reply accepts the key when the client exited with 0, its
      output is not blank and does not start with `{"error`. */
  function VerifyHuggingFaceKey(key: Option<string>, reply: CurlResult): (v: Verdict)
    ensures v.NotSet? <==> !KeyIsSet(key)
    ensures v.Valid? <==>
      KeyIsSet(key) && reply.Finished? && reply.returnCode == 0 &&
      (exists k :: 0 <= k < |reply.stdout| && !IsSpace(reply.stdout[k])) &&
      !StartsWith(reply.stdout, ErrorPrefix)
    ensures v.RequestFailed? <==> KeyIsSet(key) && reply.Raised?
    ensures v.Rejected? ==> reply.Finished? && v.details == ErrorDetails(reply.stdout)
  {
    if !KeyIsSet(key) then NotSet
    else match reply
      case Raised => RequestFailed
      case Finished(code, out) =>
        var stripped := Strip(out, IsSpace);
        assert stripped != [] <==> exists k :: 0 <= k < |out| && !IsSpace(out[k]) by {
          StripKeepsKept(out, IsSpace);
          if stripped != [] {
            ContainsChars(out, stripped);
            assert stripped[0] in out;
          }
        }
        if code == 0 && stripped != "" && !StartsWith(out, ErrorPrefix) then Valid
        else Rejected(ErrorDetails(out))
  }

  /** An unset key is reported without looking at any reply: no request is made. */
  lemma {:induction false} UnsetKeyIgnoresReply(key: Option<string>, r1: CurlResult, r2: CurlResult)
    requires !KeyIsSet(key)
    ensures VerifyOpenAIKey(key, r1) == VerifyOpenAIKey(key, r2) == NotSet
    ensures VerifyHuggingFaceKey(key, r1) == VerifyHuggingFaceKey(key, r2) == NotSet
  {
  }

  /** The command line of the checker: `--use-env`, `--openai-key`, `--hf-key`. */
  datatype Arguments = Arguments(useEnv: bool, openaiKey: Option<string>, hfKey: Option<string>)

  /** The two environment variables read after the `.env` file is loaded:
      `OPENAI_API_KEY` and `HF_API_KEY`. */
  datatype Environment = Environment(openaiApiKey: Option<string>, hfApiKey: Option<string>)

  /** `if args.x: key = args.x else: key = os.getenv(...)`: a non-empty command-line key wins,
      otherwise the environment's value is used, whatever it is. */
  function ChooseKey(cli: Option<string>, env: Option<string>): (key: Option<string>)
    ensures cli.Some? && cli.value != "" ==> key == cli
    ensures cli.None? || cli.value == "" ==> key == env
  {
    if cli.Some? && cli.value != "" then cli else env
  }

  /** What a run of the checker reports and its exit status. */
  datatype Report = Report(openai: Verdict, huggingface: Verdict, exitStatus: int)

  /** The `__main__` block: choose the keys, verify both, exit with 1 when the OpenAI key is
      not valid and with 0 otherwise. The client's replies to the two requests are inputs;
      `--use-env` is parsed and has no effect. */
  function RunChecker(args: Arguments, env: Environment, openaiReply: CurlResult, hfReply: CurlResult): (r: Report)
    ensures r.openai == VerifyOpenAIKey(ChooseKey(args.openaiKey, env.openaiApiKey), openaiReply)
    ensures r.huggingface == VerifyHuggingFaceKey(ChooseKey(args.hfKey, env.hfApiKey), hfReply)
    ensures r.exitStatus == 1 <==> !r.openai.Valid?
    ensures r.exitStatus == 0 <==> r.openai.Valid?
  {
    var openaiKey := ChooseKey(args.openaiKey, env.openaiApiKey);
    var hfKey := ChooseKey(args.hfKey, env.hfApiKey);
    var openaiValid := VerifyOpenAIKey(openaiKey, openaiReply);
    var hfValid := VerifyHuggingFaceKey(hfKey, hfReply);
    Report(openaiValid, hfValid, if openaiValid.Valid? then 0 else 1)
  }

  /** The Hugging Face key, its environment variable and its reply never change the exit
      status; nor does `--use-env`. */
  lemma ExitStatusIgnoresHuggingFace(args: Arguments, env: Environment, openaiReply: CurlResult,
                                     hfReply: CurlResult, otherHfKey: Option<string>,
                                     otherEnvHf: Option<string>, otherHfReply: CurlResult, useEnv: bool)
    ensures RunChecker(args, env, openaiReply, hfReply).exitStatus ==
            RunChecker(Arguments(useEnv, args.openaiKey, otherHfKey),
                       Environment(env.openaiApiKey, otherEnvHf), openaiReply, otherHfReply).exitStatus
  {
  }

  /** The exit status is 0 exactly when the chosen OpenAI key is set and the reply accepts it. */
  lemma ExitStatusZeroIff(args: Arguments, env: Environment, openaiReply: CurlResult, hfReply: CurlResult)
    ensures var key := ChooseKey(args.openaiKey, env.openaiApiKey);
      RunChecker(args, env, openaiReply, hfReply).exitStatus == 0 <==>
        key.Some? && key.value != "" && key.value != Placeholder &&
        openaiReply.Finished? && openaiReply.returnCode == 0 &&
        Contains(openaiReply.stdout, ChoicesMarker)
  {
  }

  /** A non-empty `--openai-key` makes the environment's OpenAI key irrelevant. */
  lemma CommandLineKeyOverridesEnvironment(args: Arguments, env: Environment, otherEnvOpenAI: Option<string>,
                                          openaiReply: CurlResult, hfReply: CurlResult)
    requires args.openaiKey.Some? && args.openaiKey.value != ""
    ensures RunChecker(args, env, openaiReply, hfReply) ==
            RunChecker(args, Environment(otherEnvOpenAI, env.hfApiKey), openaiReply, hfReply)
  {
  }

  // ---------------------------------------------------------------------------------------
  // extract_key_from_file

  /** A text file as `for line in f` sees it: the lines it yields (each with its line end),
      and whether reading then raises instead of ending. A file that cannot be opened is
      `TextFile([], true)`. */
  datatype TextFile = TextFile(lines: seq<string>, failsAfter: bool)

  /** The test on each line: it contains `"<key_name> ="` and, stripped, does not start
      with `#`. */
  predicate IsKeyLine(line: string, keyName: string) {
    Contains(line, keyName + " =") && !StartsWith(Strip(line, IsSpace), "#")
  }

  /** A key line contains `=`, so splitting it on `=` gives at least two parts. */
  lemma KeyLineHasEquals(line: string, keyName: string)
    requires IsKeyLine(line, keyName)
    ensures '=' in line
  {
    ContainsChars(line, keyName + " =");
    assert (keyName + " =")[|keyName| + 1] == '=';
  }

  /** `line.split("=")[1]`: the text between the first and the second `=`. */
  function SecondField(line: string): (f: string)
    requires '=' in line
    ensures '=' !in f && Contains(line, f)
  {
    var parts := Split(line, '=');
    JoinContainsPart(parts, '=', 1);
    parts[1]
  }

  /** `value.split("#")[0].strip()`: the text before the first `#`, stripped of white space. */
  function CutComment(value: string): (v: string)
    ensures '#' !in v && Contains(value, v)
  {
    var parts := Split(value, '#');
    JoinContainsPart(parts, '#', 0);
    var v := Strip(parts[0], IsSpace);
    ContainsTransitive(value, parts[0], v);
    ContainsChars(parts[0], v);
    v
  }

  /** `value.strip().strip('"\'')`: white space, then quotes, removed from both ends. */
  function Unquote(value: string): (v: string)
    ensures Contains(value, v)
    ensures v != [] ==> !IsQuote(v[0]) && !IsQuote(v[|v| - 1])
  {
    var stripped := Strip(value, IsSpace);
    var v := Strip(stripped, IsQuote);
    ContainsTransitive(value, stripped, v);
    v
  }

  /** The value taken from a key line, as the code computes it: the text between the first
      and the second `=`, stripped of white space and then of quotes at both ends, then cut
      before the first `#` when it holds one. The result is a contiguous part of the line and
      contains neither `=` nor `#`. */
  function KeyValue(line: string): (v: string)
    requires '=' in line
    ensures '=' !in v && '#' !in v
    ensures Contains(SecondField(line), v) && Contains(line, v)
  {
    var field := SecondField(line);
    var value := Unquote(field);
    ContainsTransitive(line, field, value);
    ContainsChars(field, value);
    if '#' in value then
      var cut := CutComment(value);
      ContainsTransitive(field, value, cut);
      ContainsTransitive(line, value, cut);
      ContainsChars(value, cut);
      cut
    else
      value
  }

  /** Line `i` is the first key line: the witness the scan returns at. */
  lemma FirstKeyLine(lines: seq<string>, keyName: string, i: nat)
    requires i < |lines| && IsKeyLine(lines[i], keyName)
    requires forall j :: 0 <= j < i ==> !IsKeyLine(lines[j], keyName)
    ensures '=' in lines[i]
    ensures exists n :: 0 <= n < |lines| && IsKeyLine(lines[n], keyName)
    ensures exists n :: (0 <= n < |lines| && IsKeyLine(lines[n], keyName) &&
      (forall j :: 0 <= j < n ==> !IsKeyLine(lines[j], keyName)) &&
      '=' in lines[n] && KeyValue(lines[i]) == KeyValue(lines[n]))
  {
    KeyLineHasEquals(lines[i], keyName);
  }

  /** The body of the matching branch: split on `=` and strip, strip the quotes, then cut
      at `#` and strip again when a `#` is left. */
  method ExtractValue(line: string) returns (value: string)
    requires '=' in line
    ensures value == KeyValue(line)
    ensures '=' !in value && '#' !in value
  {
    value := Strip(Split(line, '=')[1], IsSpace);
    value := Strip(value, IsQuote);
    if '#' in value {
      value := Strip(Split(value, '#')[0], IsSpace);
    }
  }

  /** `extract_key_from_file`: the value of the first key line; later lines are never read.
      Without a key line the result is absent, and a warning is printed when reading raised. */
  method ExtractKeyFromFile(file: TextFile, keyName: string := DefaultKeyName) returns (key: Option<string>, warned: bool)
    ensures key.Some? <==> exists i :: 0 <= i < |file.lines| && IsKeyLine(file.lines[i], keyName)
    ensures key.Some? ==> exists i :: (0 <= i < |file.lines| && IsKeyLine(file.lines[i], keyName) &&
      (forall j :: 0 <= j < i ==> !IsKeyLine(file.lines[j], keyName)) &&
      '=' in file.lines[i] && key.value == KeyValue(file.lines[i]))
    ensures key.Some? ==> '=' !in key.value && '#' !in key.value
    ensures warned <==> key.None? && file.failsAfter
  {
    var lines := file.lines;
    for i := 0 to |lines|
      invariant forall j :: 0 <= j < i ==> !IsKeyLine(lines[j], keyName)
    {
      var line := lines[i];
      if IsKeyLine(line, keyName) {
        KeyLineHasEquals(line, keyName);
        var value := ExtractValue(line);
        FirstKeyLine(lines, keyName, i);
        return Some(value), false;
      }
    }
    return None, file.failsAfter;
  }

  /** A plain key line `<key> = <v>` read back from a file, line end included, gives `v`:
      the value that was written, when it holds no `=`, `#` or quote and no white space at
      its ends. */
  lemma KeyValueOfPlainLine(keyName: string, v: string)
    requires '=' !in keyName && '=' !in v && '#' !in v
    requires v == [] || (!IsSpace(v[0]) && !IsSpace(v[|v| - 1]) && !IsQuote(v[0]) && !IsQuote(v[|v| - 1]))
    ensures '=' in PlainLine(keyName, v)
    ensures KeyValue(PlainLine(keyName, v)) == v
  {
    PlainLineField(keyName, v);
    UnquotePlain(v);
    KeyValueSteps(PlainLine(keyName, v));
  }

  /** A configuration line `<key> = <v>` as the file yields it, with its line end. */
  function PlainLine(keyName: string, v: string): string {
    keyName + " = " + v + "\n"
  }

  /** The part of a plain line after its `=`. */
  lemma PlainLineField(keyName: string, v: string)
    requires '=' !in keyName && '=' !in v
    ensures '=' in PlainLine(keyName, v)
    ensures SecondField(PlainLine(keyName, v)) == [' '] + v + ['\n']
  {
    var rest := [' '] + v + ['\n'];
    assert PlainLine(keyName, v) == (keyName + " ") + ['='] + rest;
    SplitAfterSegment(keyName + " ", '=', rest);
    SplitNoSeparator(rest, '=');
  }

  /** Unquoting ` <v>` plus a line end gives `v` back. */
  lemma UnquotePlain(v: string)
    requires v == [] || (!IsSpace(v[0]) && !IsSpace(v[|v| - 1]) && !IsQuote(v[0]) && !IsQuote(v[|v| - 1]))
    ensures Unquote([' '] + v + ['\n']) == v
  {
    BlankAndLineEnd(v);
    StripClean(v, IsQuote);
  }

  /** Stripping white space from ` <v>` plus a line end gives `v`. */
  lemma BlankAndLineEnd(v: string)
    requires v == [] || (!IsSpace(v[0]) && !IsSpace(v[|v| - 1]))
    ensures Strip([' '] + v + ['\n'], IsSpace) == v
  {
    assert [' '] + v + ['\n'] == [' '] + (v + ['\n']);
    StripPadded(' ', v, '\n', IsSpace);
  }

  // ---------------------------------------------------------------------------------------
  // Quotes before comments

  /** A configuration line `<key> = "<v>" # <comment>`. */
  function QuotedLine(keyName: string, v: string, comment: string): string {
    keyName + " = \"" + v + "\" # " + comment
  }

  /** The part of a quoted line after its first `=`. */
  lemma QuotedLineField(keyName: string, v: string, comment: string)
    requires '=' !in keyName && '=' !in v && '=' !in comment
    ensures '=' in QuotedLine(keyName, v, comment)
    ensures SecondField(QuotedLine(keyName, v, comment)) == " \"" + v + "\" # " + comment
  {
    var rest := " \"" + v + "\" # " + comment;
    assert QuotedLine(keyName, v, comment) == (keyName + " ") + ['='] + rest;
    SplitAfterSegment(keyName + " ", '=', rest);
    SplitNoSeparator(rest, '=');
  }

  /** Unquoting ` "<w>` removes the blank and the opening quote and nothing else, when `w`
      starts with no quote and ends with neither a quote nor white space. */
  lemma UnquoteOpening(w: string)
    requires w != [] && !IsQuote(w[0]) && !IsSpace(w[|w| - 1]) && !IsQuote(w[|w| - 1])
    ensures Unquote([' ', '"'] + w) == w
  {
    assert [' ', '"'] + w == [' '] + (['"'] + w);
    StripLeading(' ', ['"'] + w, IsSpace);
    StripLeading('"', w, IsQuote);
  }

  /** Cutting `<x> #<rest>` at its first `#` leaves `x` when `x` has no `#` and no white
      space at its ends. */
  lemma CutCommentAt(x: string, rest: string)
    requires '#' !in x
    requires x == [] || (!IsSpace(x[0]) && !IsSpace(x[|x| - 1]))
    ensures CutComment(x + [' ', '#'] + rest) == x
  {
    assert x + [' ', '#'] + rest == (x + [' ']) + ['#'] + rest;
    SplitAfterSegment(x + [' '], '#', rest);
    StripTrailing(x, ' ', IsSpace);
  }

  /** Cutting `<v>" # <comment>` at its first `#` leaves `<v>"`. */
  lemma CutCommentKeepsQuote(v: string, comment: string)
    requires v != [] && !IsSpace(v[0]) && '#' !in v
    ensures CutComment(v + "\" # " + comment) == v + "\""
  {
    var kept := v + "\"";
    assert kept[0] == v[0] && kept[|kept| - 1] == '"';
    assert '#' !in kept;
    assert v + "\" # " + comment == kept + [' ', '#'] + (" " + comment);
    CutCommentAt(kept, " " + comment);
  }

  /** As written, the quotes are stripped while the comment is still attached, so the closing
      quote survives: a quoted value followed by a comment comes back as `<v>"`. */
  lemma KeyValueKeepsClosingQuote(keyName: string, v: string, comment: string)
    requires '=' !in keyName && '=' !in v && '=' !in comment
    requires v != [] && !IsSpace(v[0]) && '#' !in v && '"' !in v && '\'' !in v
    requires comment != [] && !IsSpace(comment[|comment| - 1]) && !IsQuote(comment[|comment| - 1])
    ensures '=' in QuotedLine(keyName, v, comment)
    ensures KeyValue(QuotedLine(keyName, v, comment)) == v + "\""
  {
    var line := QuotedLine(keyName, v, comment);
    QuotedLineField(keyName, v, comment);
    var field := SecondField(line);
    var unquoted := v + "\" # " + comment;
    QuotedTailShape(v, comment);
    UnquoteOpening(unquoted);
    assert Unquote(field) == unquoted;
    CutCommentKeepsQuote(v, comment);
    KeyValueSteps(line);
  }

  /** `KeyValue` in terms of its three steps. */
  lemma KeyValueSteps(line: string)
    requires '=' in line
    ensures var value := Unquote(SecondField(line));
      KeyValue(line) == if '#' in value then CutComment(value) else value
  {
  }

  /** The two ways of reading ` "<v>" # <comment>` the proof above needs. */
  lemma QuotedTailShape(v: string, comment: string)
    requires comment != []
    ensures " \"" + v + "\" # " + comment == [' ', '"'] + (v + "\" # " + comment)
    ensures v + "\" # " + comment == (v + "\"") + [' ', '#'] + (" " + comment)
    ensures (v + "\" # " + comment)[|v| + |comment| + 3] == comment[|comment| - 1]
    ensures '#' in v + "\" # " + comment
  {
    assert (v + "\" # " + comment)[|v| + 2] == '#';
  }

  /** The line that shows it: `api_key = "sk-1" # test` yields `sk-1"`. */
  lemma KeyValueExample(line: string)
    requires line == "api_key = \"sk-1\" # test"
    ensures '=' in line
    ensures KeyValue(line) == "sk-1\""
  {
    ExampleLine(line);
    KeyValueKeepsClosingQuote("api_key", "sk-1", "test");
  }

  /** The same line yields `sk-1` when the comment is cut first. */
  lemma IntendedKeyValueExample(line: string)
    requires line == "api_key = \"sk-1\" # test"
    ensures '=' in line
    ensures IntendedKeyValue(line) == "sk-1"
  {
    ExampleLine(line);
    IntendedKeyValueOfQuotedLine("api_key", "sk-1", "test");
  }

  lemma ExampleLine(line: string)
    requires line == "api_key = \"sk-1\" # test"
    ensures line == QuotedLine("api_key", "sk-1", "test")
  {
  }

  /** The evidently intended value: cut the comment first, then strip white space and quotes. */
  function IntendedKeyValue(line: string): (v: string)
    requires '=' in line
    ensures '=' !in v && '#' !in v
    ensures Contains(SecondField(line), v) && Contains(line, v)
    ensures v != [] ==> !IsQuote(v[0]) && !IsQuote(v[|v| - 1])
  {
    var field := SecondField(line);
    var parts := Split(field, '#');
    JoinContainsPart(parts, '#', 0);
    var value := Unquote(parts[0]);
    ContainsTransitive(field, parts[0], value);
    ContainsTransitive(line, field, value);
    ContainsChars(field, value);
    ContainsChars(parts[0], value);
    value
  }

  /** Without a comment the two orders agree: the correction changes only lines whose
      value holds a `#`. */
  lemma IntendedAgreesWithoutComment(line: string)
    requires '=' in line && '#' !in SecondField(line)
    ensures IntendedKeyValue(line) == KeyValue(line)
  {
    var field := SecondField(line);
    SplitNoSeparator(field, '#');
    assert Split(field, '#')[0] == field;
    ContainsChars(field, Unquote(field));
  }

  /** The part before the comment of ` "<v>" # <comment>` is ` "<v>" `. */
  lemma BeforeCommentOfQuoted(v: string, comment: string)
    requires '#' !in v
    ensures Split(" \"" + v + "\" # " + comment, '#')[0] == [' ', '"'] + v + ['"', ' ']
  {
    var before := [' ', '"'] + v + ['"', ' '];
    assert " \"" + v + "\" # " + comment == before + ['#'] + (" " + comment);
    assert '#' !in before;
    SplitAfterSegment(before, '#', " " + comment);
  }

  /** A quoted value between blanks unquotes to itself. */
  lemma UnquoteQuoted(v: string)
    requires '"' !in v && '\'' !in v
    ensures Unquote([' ', '"'] + v + ['"', ' ']) == v
  {
    BlanksAroundQuoted(v);
    QuotesAround(v);
  }

  /** Stripping white space from ` "<v>" ` leaves `"<v>"`. */
  lemma BlanksAroundQuoted(v: string)
    ensures Strip([' ', '"'] + v + ['"', ' '], IsSpace) == ['"'] + v + ['"']
  {
    var quoted := ['"'] + v + ['"'];
    assert [' ', '"'] + v + ['"', ' '] == [' '] + (quoted + [' ']);
    StripPadded(' ', quoted, ' ', IsSpace);
  }

  /** Stripping quotes from `"<v>"` leaves `v` when `v` holds no quote. */
  lemma QuotesAround(v: string)
    requires '"' !in v && '\'' !in v
    ensures Strip(['"'] + v + ['"'], IsQuote) == v
  {
    assert ['"'] + v + ['"'] == ['"'] + (v + ['"']);
    assert v != [] ==> v[0] in v && v[|v| - 1] in v;
    StripPadded('"', v, '"', IsQuote);
  }


  /** With the comment cut first, `<key> = "<v>" # <comment>` gives back exactly `<v>`. */
  lemma IntendedKeyValueOfQuotedLine(keyName: string, v: string, comment: string)
    requires '=' !in keyName && '=' !in v && '=' !in comment
    requires '#' !in v && '"' !in v && '\'' !in v
    ensures '=' in QuotedLine(keyName, v, comment)
    ensures IntendedKeyValue(QuotedLine(keyName, v, comment)) == v
  {
    QuotedLineField(keyName, v, comment);
    BeforeCommentOfQuoted(v, comment);
    UnquoteQuoted(v);
  }
}

/**
 * `save_token_to_env` of agents/agent.py: write the access token into the first `.env` file
 * found among a list of candidate paths, replacing the first `GITHUB_PERSONAL_ACCESS_TOKEN=`
 * line or appending one.
 *
 * The disk is an `EnvFiles` object: a map from each existing path to its text, and the set of
 * existing paths whose read or write raises (a directory, a file without permission).
 */
module EnvFile {
  import opened Wrappers
  import opened Lines

  /** The prefix of the line that holds the token. */
  const TokenKey: string := "GITHUB_PERSONAL_ACCESS_TOKEN="

  /** The line that records `token`. */
  function KeyLine(token: string): string
  {
    TokenKey + token
  }

  /** The first line that starts with the key, if any. */
  function FirstKeyLine(lines: seq<string>): (r: Option<nat>)
    ensures r.Some? ==> r.value < |lines| && TokenKey <= lines[r.value]
    ensures r.Some? ==> forall j :: 0 <= j < r.value ==> !(TokenKey <= lines[j])
    ensures r.None? ==> forall j :: 0 <= j < |lines| ==> !(TokenKey <= lines[j])
  {
    if lines == [] then None
    else if TokenKey <= lines[0] then Some(0)
    else match FirstKeyLine(lines[1..])
      case Some(i) => Some(i + 1)
      case None => None
  }

  /**
   * The text `save_token_to_env` writes back for a file that held `content`: when the key
   * occurs anywhere in it, the lines with the first key line replaced (rejoined as they were
   * split); otherwise the content followed by a new key line between newlines.
   */
  function UpdatedContent(content: string, token: string): (r: string)
    // the key is in the file afterwards, whichever branch was taken
    ensures Contains(r, TokenKey)
  {
    if Contains(content, TokenKey) then
      var lines := Split(content);
      match FirstKeyLine(lines)
      case Some(i) =>
        ContainsLinePrefix(lines[i := KeyLine(token)], i, TokenKey);
        Join(lines[i := KeyLine(token)])
      case None =>
        JoinSplit(content);
        Join(lines)
    else
      var tail := KeyLine(token) + "\n";
      assert TokenKey <= tail;
      ContainsInSuffix(content + "\n", tail, TokenKey);
      assert content + "\n" + tail == content + "\n" + KeyLine(token) + "\n";
      content + "\n" + KeyLine(token) + "\n"
  }

  /**
   * The update, step by step as the source does it: test for the key, split into lines, scan
   * for the first key line, overwrite it and stop, join; or append.
   */
  method UpdateEnvContent(content: string, token: string) returns (updated: string)
    ensures updated == UpdatedContent(content, token)
    ensures !Contains(content, TokenKey) ==> updated == content + "\n" + KeyLine(token) + "\n"
  {
    if Contains(content, TokenKey) {
      var lines := Split(content);
      ghost var first: Option<nat> := None;
      var i := 0;
      while i < |lines|
        invariant 0 <= i <= |lines|
        invariant lines == Split(content) && first == None
        invariant forall j :: 0 <= j < i ==> !(TokenKey <= lines[j])
      {
        if TokenKey <= lines[i] {
          first := FirstKeyLine(lines);
          assert first == Some(i);
          lines := lines[i := KeyLine(token)];
          break;
        }
        i := i + 1;
      }
      assert first == FirstKeyLine(Split(content));
      assert lines == match first case Some(k) => Split(content)[k := KeyLine(token)] case None => Split(content);
      updated := Join(lines);
    } else {
      updated := content + "\n" + KeyLine(token) + "\n";
    }
  }

  /** The key contains no newline, so a key line of a newline-free token is one line. */
  lemma KeyLineIsOneLine(token: string)
    requires '\n' !in token
    ensures '\n' !in KeyLine(token)
  {
  }

  /**
   * Key absent: the file keeps all its lines and gains the key line and then an empty line
   * (the text ends with the newline the append adds).
   */
  lemma {:induction false} AppendsKeyLine(content: string, token: string)
    requires !Contains(content, TokenKey)
    requires '\n' !in token
    ensures Split(UpdatedContent(content, token)) == Split(content) + [KeyLine(token), ""]
  {
    var line := KeyLine(token);
    KeyLineIsOneLine(token);
    assert UpdatedContent(content, token) == content + "\n" + (line + "\n" + "");
    SplitConcat(content, line + "\n" + "");
    SplitConcat(line, "");
    SplitSingleLine(line);
    assert Split("") == [""];
  }

  /**
   * Key at the start of some line: only the first such line is replaced; the number of lines,
   * their order and every other line (later key lines included) stay as they were.
   */
  lemma {:induction false} ReplacesFirstKeyLine(content: string, token: string, i: nat)
    requires FirstKeyLine(Split(content)) == Some(i)
    requires '\n' !in token
    ensures Split(UpdatedContent(content, token)) == Split(content)[i := KeyLine(token)]
  {
    var lines := Split(content);
    ContainsLinePrefix(lines, i, TokenKey);
    JoinSplit(content);
    KeyLineIsOneLine(token);
    SplitJoin(lines[i := KeyLine(token)]);
  }

  /**
   * Key present only inside a line (say, after a `#`): no line is replaced and splitting and
   * rejoining gives the content back unchanged, so the token is not written.
   */
  lemma {:induction false} KeepsContentWithoutKeyLine(content: string, token: string)
    requires Contains(content, TokenKey)
    requires FirstKeyLine(Split(content)).None?
    ensures UpdatedContent(content, token) == content
  {
    JoinSplit(content);
  }

  /** The result of `save_token_to_env`: the returned flag and the files afterwards. */
  datatype SaveResult = SaveResult(saved: bool, files: map<string, string>)

  /** Candidate `i` is the first candidate path that exists. */
  predicate IsFirstExisting(candidates: seq<string>, existing: set<string>, i: int)
  {
    0 <= i < |candidates| && candidates[i] in existing &&
    forall j :: 0 <= j < i ==> candidates[j] !in existing
  }

  /** The first candidate path that exists, if any. */
  function FirstExisting(candidates: seq<string>, existing: set<string>): (r: Option<nat>)
    ensures r.Some? ==> IsFirstExisting(candidates, existing, r.value)
    ensures r.None? ==> forall j :: 0 <= j < |candidates| ==> candidates[j] !in existing
  {
    if candidates == [] then None
    else if candidates[0] in existing then Some(0)
    else match FirstExisting(candidates[1..], existing)
      case Some(i) => Some(i + 1)
      case None => None
  }

  /** At most one candidate is the first existing one. */
  lemma FirstExistingUnique(candidates: seq<string>, existing: set<string>, i: int)
    requires IsFirstExisting(candidates, existing, i)
    ensures forall k :: IsFirstExisting(candidates, existing, k) ==> k == i
  {
  }

  /**
   * `save_token_to_env` on a disk holding `files`: only the first existing candidate is
   * touched; it gets the updated text and True is returned, unless reading or writing it
   * raises, in which case False is returned and nothing changes. No existing candidate:
   * False, nothing written. No file is ever created.
   */
  function SaveOutcome(files: map<string, string>, failing: set<string>, candidates: seq<string>, token: string): (r: SaveResult)
    ensures r.saved <==> exists i :: IsFirstExisting(candidates, files.Keys, i) && candidates[i] !in failing
    ensures forall i :: IsFirstExisting(candidates, files.Keys, i) && candidates[i] !in failing ==>
              r.files == files[candidates[i] := UpdatedContent(files[candidates[i]], token)]
    ensures !r.saved ==> r.files == files
    ensures r.files.Keys == files.Keys
  {
    match FirstExisting(candidates, files.Keys)
    case None => SaveResult(false, files)
    case Some(i) =>
      FirstExistingUnique(candidates, files.Keys, i);
      var path := candidates[i];
      if path in failing then SaveResult(false, files)
      else SaveResult(true, files[path := UpdatedContent(files[path], token)])
  }

  /** The `.env` files the process can see. */
  class EnvFiles {
    /**
     * Each existing path and its text as Python's text mode reads it (newlines translated,
     * bytes decoded), not the bytes on disk.
     */
    var files: map<string, string>
    /** Existing paths whose read or write raises. */
    const failing: set<string>

    constructor (files: map<string, string>, failing: set<string>)
      ensures this.files == files && this.failing == failing
    {
      this.files := files;
      this.failing := failing;
    }

    /**
     * `save_token_to_env`: walk the candidates, stop at the first that exists, rewrite it
     * and return True; an exception while reading or writing returns False.
     */
    method SaveTokenToEnv(candidates: seq<string>, token: string) returns (saved: bool)
      modifies this`files
      ensures SaveResult(saved, files) == SaveOutcome(old(files), failing, candidates, token)
    {
      var i := 0;
      while i < |candidates|
        invariant 0 <= i <= |candidates|
        invariant files == old(files)
        invariant forall j :: 0 <= j < i ==> candidates[j] !in files
      {
        var path := candidates[i];
        if path in files {
          assert FirstExisting(candidates, files.Keys) == Some(i);
          if path in failing {
            return false;
          }
          var updated := UpdateEnvContent(files[path], token);
          files := files[path := updated];
          return true;
        }
        i := i + 1;
      }
      saved := false;
    }
  }
}

/** vimpy/vim_helper.py: the editor command line that runs an Ack search. */
module VimHelper {
  import opened Wrappers
  import opened Strings

  /** Folder searched when none is given. */
  const DefaultSearchFolder: string := "."

  /** `f"!Ack {search_str} {search_folder}"`, the folder defaulting to "."
      only when it is None; any given folder, "" included, is used verbatim. */
  function SearchInFolder(searchStr: string, searchFolder: Option<string> := None): (r: string)
    ensures |r| == 6 + |searchStr| + |searchFolder.GetOr(DefaultSearchFolder)|
    ensures r[..5] == "!Ack " && r[5..5 + |searchStr|] == searchStr && r[5 + |searchStr|] == ' '
    ensures searchFolder.None? ==> r[6 + |searchStr|..] == "."
    ensures searchFolder.Some? ==> r[6 + |searchStr|..] == searchFolder.value
  {
    var folder := if searchFolder.None? then DefaultSearchFolder else searchFolder.value;
    "!Ack " + searchStr + " " + folder
  }

  /** Read back by the editor's space-separated tokenizer, the command is the
      word `!Ack`, then the search term, then the folder's own pieces. */
  lemma SearchInFolderSplits(searchStr: string, searchFolder: Option<string>)
    requires ' ' !in searchStr
    ensures Split(SearchInFolder(searchStr, searchFolder))
         == ["!Ack", searchStr] + Split(searchFolder.GetOr(DefaultSearchFolder))
  {
    var folder := searchFolder.GetOr(DefaultSearchFolder);
    var tail := Split(folder);
    assert SearchInFolder(searchStr, searchFolder) == "!Ack" + (" " + (searchStr + (" " + folder)));
    assert (" " + folder)[1..] == folder;
    assert Split(" " + folder) == [""] + tail;
    SplitAfterWord(searchStr, " " + folder);
    assert searchStr + "" == searchStr;
    var afterAck := searchStr + (" " + folder);
    assert (" " + afterAck)[1..] == afterAck;
    assert Split(" " + afterAck) == [""] + Split(afterAck);
    SplitAfterWord("!Ack", " " + afterAck);
    assert "!Ack" + "" == "!Ack";
  }
}

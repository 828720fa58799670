/** The repository-root comment stripper: two regular-expression
    substitutions applied to whole files found by a directory walk. */
module CommentStripper {
  import opened Text

  /** A two-character delimiter `ab` starts at index `i` of `s`. */
  predicate PairAt(s: string, i: int, a: char, b: char)
  {
    0 <= i && i + 1 < |s| && s[i] == a && s[i + 1] == b
  }

  predicate NoPair(s: string, a: char, b: char)
  {
    forall j :: 0 <= j < |s| ==> !PairAt(s, j, a, b)
  }

  /** The leftmost occurrence of the delimiter `ab` in `s`. */
  function FindPair(s: string, a: char, b: char): (r: Option<nat>)
    ensures r.Some? ==> PairAt(s, r.value, a, b)
    ensures r.Some? ==> forall j :: 0 <= j < r.value ==> !PairAt(s, j, a, b)
    ensures r.None? <==> NoPair(s, a, b)
  {
    if |s| < 2 then None
    else if s[0] == a && s[1] == b then
      assert PairAt(s, 0, a, b);
      Some(0)
    else
      match FindPair(s[1..], a, b)
      case Some(k) =>
        assert forall j :: 1 <= j <= k ==> (PairAt(s, j, a, b) <==> PairAt(s[1..], j - 1, a, b));
        assert PairAt(s, k + 1, a, b);
        Some(k + 1)
      case None =>
        assert forall j :: 1 <= j < |s| ==> (PairAt(s, j, a, b) <==> PairAt(s[1..], j - 1, a, b));
        None
  }

  /** The suffix of `s` that starts at its first newline (empty if none):
      what is left once `.*` has consumed the rest of the line. */
  function FromNewline(s: string): (r: string)
    ensures |r| <= |s| && r == s[|s| - |r|..]
    ensures r == [] || r[0] == '\n'
    ensures '\n' !in s[..|s| - |r|]
  {
    if s == [] || s[0] == '\n' then s
    else
      var r := FromNewline(s[1..]);
      assert s[..|s| - |r|] == [s[0]] + s[1..][..|s[1..]| - |r|];
      r
  }

  /** `re.sub(r'//.*', '', s)`: each `//` through the end of its line goes,
      scanning left to right and resuming after each match. */
  function RemoveLineComments(s: string): string
    decreases |s|
  {
    if |s| < 2 then s
    else if s[0] == '/' && s[1] == '/' then RemoveLineComments(FromNewline(s))
    else [s[0]] + RemoveLineComments(s[1..])
  }

  // The non-greedy, DOTALL block-comment substitution: the leftmost opener
  // "/" "*" that has a closer "*" "/" after it goes, up to and including the
  // first such closer; an opener with no closer stays.
  function RemoveBlockComments(s: string): string
    decreases |s|
  {
    if |s| < 2 then s
    else if s[0] == '/' && s[1] == '*' then
      match FindPair(s[2..], '*', '/')
      case Some(k) => RemoveBlockComments(s[k + 4..])
      case None => [s[0]] + RemoveBlockComments(s[1..])
    else [s[0]] + RemoveBlockComments(s[1..])
  }

  /** The body shared by `remove_java_comments` and `remove_js_comments`:
      line comments first, then block comments. */
  function StripComments(content: string): string
  {
    RemoveBlockComments(RemoveLineComments(content))
  }

  /** The part of a single line that precedes its first `//`. */
  function BeforeLineComment(line: string): (r: string)
  {
    match FindPair(line, '/', '/')
    case Some(k) => line[..k]
    case None => line
  }

  lemma FromNewlineStep(s: string)
    requires s != [] && s[0] != '\n'
    ensures FromNewline(s) == FromNewline(s[1..])
  {
  }

  lemma {:induction false} FromNewlineSkipsLine(line: string, rest: string)
    requires '\n' !in line
    requires rest == [] || rest[0] == '\n'
    ensures FromNewline(line + rest) == rest
    decreases |line|
  {
    if line != [] {
      assert line[0] in line;
      assert forall c :: c in line[1..] ==> c in line;
      ConcatTail(line, rest);
      FromNewlineSkipsLine(line[1..], rest);
      FromNewlineStep(line + rest);
    } else {
      assert line + rest == rest;
    }
  }

  /** Line comments are removed line by line: a line without a newline keeps
      exactly the text before its first `//`, and what follows (starting at the
      newline, which is kept) is processed on its own. */
  lemma {:induction false} LineCommentsRemovedPerLine(line: string, rest: string)
    requires '\n' !in line
    requires rest == [] || rest[0] == '\n'
    ensures RemoveLineComments(line + rest) == BeforeLineComment(line) + RemoveLineComments(rest)
    decreases |line|
  {
    var s := line + rest;
    if line == [] {
      assert s == rest;
    } else if |s| < 2 {
      assert rest == [] && s == line && |line| == 1;
    } else if s[0] == '/' && s[1] == '/' {
      assert |line| >= 2 && PairAt(line, 0, '/', '/');
      FromNewlineSkipsLine(line, rest);
      LineCommentStep(s);
    } else {
      ConcatTail(line, rest);
      LineCommentsRemovedPerLine(line[1..], rest);
      if |line| >= 2 {
        assert s[1] == line[1];
      }
      BeforeLineCommentStep(line);
      LineTextStep(s);
      ConcatTail(BeforeLineComment(line), RemoveLineComments(rest));
    }
  }

  lemma LineCommentStep(s: string)
    requires |s| >= 2 && s[0] == '/' && s[1] == '/'
    ensures RemoveLineComments(s) == RemoveLineComments(FromNewline(s))
  {
  }

  lemma LineTextStep(s: string)
    requires |s| >= 2 && !(s[0] == '/' && s[1] == '/')
    ensures RemoveLineComments(s) == [s[0]] + RemoveLineComments(s[1..])
  {
  }

  lemma BeforeLineCommentStep(line: string)
    requires line != [] && !PairAt(line, 0, '/', '/')
    ensures BeforeLineComment(line) == [line[0]] + BeforeLineComment(line[1..])
  {
    assert forall j :: 1 <= j < |line| ==> (PairAt(line, j, '/', '/') <==> PairAt(line[1..], j - 1, '/', '/'));
    match FindPair(line, '/', '/')
    case Some(k) =>
      assert FindPair(line[1..], '/', '/') == Some(k - 1);
      assert line[..k] == [line[0]] + line[1..][..k - 1];
    case None =>
      assert FindPair(line[1..], '/', '/') == None;
      assert line == [line[0]] + line[1..];
  }

  /** A line comment never swallows the newline that ends it. */
  lemma NewlineKept(line: string, rest: string)
    requires '\n' !in line
    ensures RemoveLineComments(line + "\n" + rest) == BeforeLineComment(line) + "\n" + RemoveLineComments(rest)
  {
    var t := "\n" + rest;
    assert line + "\n" + rest == line + t;
    LineCommentsRemovedPerLine(line, t);
    assert t[1..] == rest;
    if rest == [] {
      assert RemoveLineComments(t) == t;
    } else {
      assert RemoveLineComments(t) == [t[0]] + RemoveLineComments(t[1..]);
    }
  }

  /** Text with no `//` is untouched by the first substitution. */
  lemma {:induction false} NoLineOpenerUnchanged(s: string)
    requires NoPair(s, '/', '/')
    ensures RemoveLineComments(s) == s
    decreases |s|
  {
    if |s| >= 2 {
      assert !PairAt(s, 0, '/', '/');
      assert forall j :: 0 <= j < |s| - 1 ==> (PairAt(s[1..], j, '/', '/') <==> PairAt(s, j + 1, '/', '/'));
      NoLineOpenerUnchanged(s[1..]);
      assert s == [s[0]] + s[1..];
    }
  }

  // Text with no block opener is untouched by the second substitution.
  lemma {:induction false} NoBlockOpenerUnchanged(s: string)
    requires NoPair(s, '/', '*')
    ensures RemoveBlockComments(s) == s
    decreases |s|
  {
    if |s| >= 2 {
      assert !PairAt(s, 0, '/', '*');
      assert forall j :: 0 <= j < |s| - 1 ==> (PairAt(s[1..], j, '/', '*') <==> PairAt(s, j + 1, '/', '*'));
      NoBlockOpenerUnchanged(s[1..]);
      assert s == [s[0]] + s[1..];
    }
  }

  /** Text without any `/` passes through the whole transform unchanged. */
  lemma NoSlashUnchanged(s: string)
    requires '/' !in s
    ensures StripComments(s) == s
  {
    assert forall j :: 0 <= j < |s| ==> s[j] != '/';
    NoLineOpenerUnchanged(s);
    NoBlockOpenerUnchanged(s);
  }

  lemma FirstCharKept(s: string)
    requires |s| >= 1 && !PairAt(s, 0, '/', '/')
    ensures RemoveLineComments(s) != [] && RemoveLineComments(s)[0] == s[0]
  {
  }

  /** After the first substitution no `//` is left anywhere. */
  lemma {:induction false} LineStripLeavesNoOpener(s: string)
    ensures NoPair(RemoveLineComments(s), '/', '/')
    decreases |s|
  {
    if |s| < 2 {
    } else if s[0] == '/' && s[1] == '/' {
      LineStripLeavesNoOpener(FromNewline(s));
    } else {
      var t := RemoveLineComments(s[1..]);
      LineStripLeavesNoOpener(s[1..]);
      var r := [s[0]] + t;
      if s[0] == '/' && t != [] {
        assert s[1] != '/';
        FirstCharKept(s[1..]);
      }
      forall j | 0 <= j < |r|
        ensures !PairAt(r, j, '/', '/')
      {
        if j >= 1 {
          assert PairAt(r, j, '/', '/') ==> PairAt(t, j - 1, '/', '/');
        }
      }
    }
  }

  /** Removing line comments a second time changes nothing. */
  lemma LineStripIdempotent(s: string)
    ensures RemoveLineComments(RemoveLineComments(s)) == RemoveLineComments(s)
  {
    LineStripLeavesNoOpener(s);
    NoLineOpenerUnchanged(RemoveLineComments(s));
  }

  lemma CloseFoundAfterBody(c: string, d: string)
    requires NoPair(c, '*', '/')
    ensures FindPair(c + "*/" + d, '*', '/') == Some(|c|)
  {
    var s := c + "*/" + d;
    assert PairAt(s, |c|, '*', '/');
    forall j | 0 <= j < |c|
      ensures !PairAt(s, j, '*', '/')
    {
      if j + 1 < |c| {
        assert !PairAt(c, j, '*', '/');
      }
    }
    if FindPair(s, '*', '/').Some? && FindPair(s, '*', '/').value != |c| {
      assert false;
    }
  }

  lemma BlockStep(s: string)
    requires |s| >= 2 && !(s[0] == '/' && s[1] == '*')
    ensures RemoveBlockComments(s) == [s[0]] + RemoveBlockComments(s[1..])
  {
  }

  /** Dropping the first character keeps a text free of a delimiter. */
  lemma NoPairTail(a: string, x: char, y: char)
    requires a != [] && NoPair(a, x, y)
    ensures NoPair(a[1..], x, y)
  {
    forall j | 0 <= j < |a[1..]|
      ensures !PairAt(a[1..], j, x, y)
    {
      assert !PairAt(a, j + 1, x, y);
    }
  }

  /** Text with no block opener before the first one is kept as it is. */
  lemma {:induction false} TextBeforeOpenerKept(a: string, rest: string)
    requires NoPair(a, '/', '*')
    requires rest != [] && rest[0] == '/'
    ensures RemoveBlockComments(a + rest) == a + RemoveBlockComments(rest)
    decreases |a|
  {
    if a == [] {
      assert a + rest == rest;
    } else {
      var s := a + rest;
      NoPairTail(a, '/', '*');
      TextBeforeOpenerKept(a[1..], rest);
      ConcatTail(a, rest);
      if |a| >= 2 {
        assert !PairAt(a, 0, '/', '*');
        assert s[1] == a[1];
      } else {
        assert s[1] == rest[0];
      }
      BlockStep(s);
      ConcatTail(a, RemoveBlockComments(rest));
    }
  }

  /** An opener at the start goes with everything up to its first closer. */
  lemma BlockAtStartRemoved(c: string, d: string)
    requires NoPair(c, '*', '/')
    ensures RemoveBlockComments("/*" + c + "*/" + d) == RemoveBlockComments(d)
  {
    var s := "/*" + c + "*/" + d;
    assert s[2..] == c + "*/" + d;
    CloseFoundAfterBody(c, d);
    assert s[|c| + 4..] == d;
  }

  // The leftmost block opener is removed together with the shortest text
  // that ends in a closer, even across lines; scanning resumes after it.
  lemma LeftmostShortestBlockRemoved(a: string, c: string, d: string)
    requires NoPair(a, '/', '*')
    requires NoPair(c, '*', '/')
    ensures RemoveBlockComments(a + "/*" + c + "*/" + d) == a + RemoveBlockComments(d)
  {
    var rest := "/*" + c + "*/" + d;
    assert a + "/*" + c + "*/" + d == a + rest;
    TextBeforeOpenerKept(a, rest);
    BlockAtStartRemoved(c, d);
  }

  /** Dropping a prefix keeps a text free of a delimiter. */
  lemma NoPairSuffix(a: string, n: nat, x: char, y: char)
    requires n <= |a| && NoPair(a, x, y)
    ensures NoPair(a[n..], x, y)
  {
    forall j | 0 <= j < |a[n..]|
      ensures !PairAt(a[n..], j, x, y)
    {
      assert !PairAt(a, j + n, x, y);
    }
  }

  /** Text with no closer is untouched by the second substitution: every
      opener in it is left without a match. */
  lemma {:induction false} NoCloserUnchanged(s: string)
    requires NoPair(s, '*', '/')
    ensures RemoveBlockComments(s) == s
    decreases |s|
  {
    if |s| >= 2 {
      NoPairTail(s, '*', '/');
      NoCloserUnchanged(s[1..]);
      if s[0] == '/' && s[1] == '*' {
        NoPairSuffix(s, 2, '*', '/');
      }
      assert s == [s[0]] + s[1..];
    }
  }

  lemma UnclosedOpenerStep(s: string)
    requires |s| >= 2 && s[0] == '/' && s[1] == '*'
    requires FindPair(s[2..], '*', '/').None?
    ensures RemoveBlockComments(s) == [s[0]] + RemoveBlockComments(s[1..])
  {
  }

  /** An opener with no closer after it stays, and so does the rest. */
  lemma UnclosedOpenerKept(s: string)
    requires |s| >= 2 && s[0] == '/' && s[1] == '*'
    requires NoPair(s[2..], '*', '/')
    ensures RemoveBlockComments(s) == s
  {
    var t := s[1..];
    UnclosedOpenerStep(s);
    NoCloserUnchanged(s[2..]);
    if |t| >= 2 {
      BlockStep(t);
      assert t[1..] == s[2..];
    }
    assert RemoveBlockComments(t) == t;
    assert s == [s[0]] + t;
  }

  /** The second substitution keeps a first character that is not `/`. */
  lemma BlockFirstCharKept(s: string)
    requires s != [] && s[0] != '/'
    ensures RemoveBlockComments(s) != [] && RemoveBlockComments(s)[0] == s[0]
  {
  }

  /** On text without `//`, removing block comments creates no `//`: the
      character before a removed comment and the one after it are not `/`. */
  lemma {:induction false} BlockStripKeepsNoLineOpener(s: string)
    requires NoPair(s, '/', '/')
    ensures NoPair(RemoveBlockComments(s), '/', '/')
    decreases |s|
  {
    if |s| < 2 {
    } else if s[0] == '/' && s[1] == '*' {
      match FindPair(s[2..], '*', '/')
      case Some(k) =>
        NoPairSuffix(s, k + 4, '/', '/');
        BlockStripKeepsNoLineOpener(s[k + 4..]);
      case None =>
        UnclosedOpenerKept(s);
    } else {
      NoPairTail(s, '/', '/');
      BlockStripKeepsNoLineOpener(s[1..]);
      var t := RemoveBlockComments(s[1..]);
      BlockStep(s);
      if s[0] == '/' {
        assert !PairAt(s, 0, '/', '/');
        BlockFirstCharKept(s[1..]);
      }
      var r := [s[0]] + t;
      forall j | 0 <= j < |r|
        ensures !PairAt(r, j, '/', '/')
      {
        if j >= 1 {
          assert PairAt(r, j, '/', '/') ==> PairAt(t, j - 1, '/', '/');
        }
      }
    }
  }

  /** On text without `//`, removing block comments a second time changes
      nothing: the two neighbours of a removed comment never form a new
      opener. */
  lemma {:induction false} BlockStripIdempotent(s: string)
    requires NoPair(s, '/', '/')
    ensures RemoveBlockComments(RemoveBlockComments(s)) == RemoveBlockComments(s)
    decreases |s|
  {
    if |s| < 2 {
    } else if s[0] == '/' && s[1] == '*' {
      match FindPair(s[2..], '*', '/')
      case Some(k) =>
        NoPairSuffix(s, k + 4, '/', '/');
        BlockStripIdempotent(s[k + 4..]);
      case None =>
        UnclosedOpenerKept(s);
    } else {
      NoPairTail(s, '/', '/');
      BlockStripIdempotent(s[1..]);
      var t := RemoveBlockComments(s[1..]);
      BlockStep(s);
      var r := [s[0]] + t;
      if t != [] {
        if s[0] == '/' {
          assert !PairAt(s, 0, '/', '/');
          BlockFirstCharKept(s[1..]);
        }
        assert r[1..] == t;
        BlockStep(r);
      }
    }
  }

  /** Stripping comments a second time changes nothing. */
  lemma StripIdempotent(s: string)
    ensures StripComments(StripComments(s)) == StripComments(s)
  {
    var t := RemoveLineComments(s);
    LineStripLeavesNoOpener(s);
    BlockStripKeepsNoLineOpener(t);
    NoLineOpenerUnchanged(RemoveBlockComments(t));
    BlockStripIdempotent(t);
  }

  /** Which files a group rewrites: `.java`, or `.js` and `.jsx`. */
  datatype Group = JavaFiles | JsFiles

  predicate Selected(g: Group, name: string)
  {
    match g
    case JavaFiles => EndsWith(name, ".java")
    case JsFiles => EndsWith(name, ".js") || EndsWith(name, ".jsx")
  }

  /** One file reported by `os.walk`: the directory it was found in and its name. */
  datatype WalkEntry = WalkEntry(dir: string, name: string)

  /** `os.path.join(dir, name)`. */
  function JoinPath(dir: string, name: string): string
  {
    if dir == [] then name
    else if dir[|dir| - 1] == '/' then dir + name
    else dir + "/" + name
  }

  function PathOf(e: WalkEntry): string
  {
    JoinPath(e.dir, e.name)
  }

  /** The file contents after the walk `w` has been processed in order. */
  function Processed(files: map<string, string>, w: seq<WalkEntry>, g: Group): map<string, string>
    decreases |w|
  {
    if w == [] then files
    else
      var before := Processed(files, w[..|w| - 1], g);
      var e := w[|w| - 1];
      if Selected(g, e.name) && PathOf(e) in before then
        before[PathOf(e) := StripComments(before[PathOf(e)])]
      else before
  }

  /** The lines printed while the walk `w` is processed. */
  function ProgressLines(w: seq<WalkEntry>, g: Group): seq<string>
    decreases |w|
  {
    if w == [] then []
    else
      var e := w[|w| - 1];
      ProgressLines(w[..|w| - 1], g) +
      (if Selected(g, e.name) then [ProgressLine(g, PathOf(e))] else [])
  }

  function ProgressLine(g: Group, path: string): string
  {
    match g
    case JavaFiles => "Processing Java file: " + path
    case JsFiles => "Processing JavaScript file: " + path
  }

  function SelectedPaths(w: seq<WalkEntry>, g: Group): set<string>
  {
    set e | e in w && Selected(g, e.name) :: PathOf(e)
  }

  predicate DistinctPaths(w: seq<WalkEntry>)
  {
    forall i, j :: 0 <= i < j < |w| ==> PathOf(w[i]) != PathOf(w[j])
  }

  lemma SelectedPathsSnoc(w: seq<WalkEntry>, g: Group)
    requires w != []
    ensures SelectedPaths(w, g) ==
      SelectedPaths(w[..|w| - 1], g) + (if Selected(g, w[|w| - 1].name) then {PathOf(w[|w| - 1])} else {})
  {
    assert w == w[..|w| - 1] + [w[|w| - 1]];
  }

  lemma LastPathNotEarlier(w: seq<WalkEntry>, g: Group)
    requires w != [] && DistinctPaths(w)
    ensures PathOf(w[|w| - 1]) !in SelectedPaths(w[..|w| - 1], g)
  {
    var init := w[..|w| - 1];
    forall x | x in init && Selected(g, x.name)
      ensures PathOf(x) != PathOf(w[|w| - 1])
    {
      var i :| 0 <= i < |init| && init[i] == x;
      assert w[i] == x;
    }
  }

  /** Processing a walk that lists each file once strips exactly the files whose
      name has a selected extension and leaves every other file as it was. */
  lemma {:induction false} ProcessedStripsSelected(files: map<string, string>, w: seq<WalkEntry>, g: Group)
    requires DistinctPaths(w)
    requires forall e :: e in w ==> PathOf(e) in files
    ensures Processed(files, w, g).Keys == files.Keys
    ensures forall p :: p in files ==>
      Processed(files, w, g)[p] == if p in SelectedPaths(w, g) then StripComments(files[p]) else files[p]
    decreases |w|
  {
    KeysKept(files, w, g);
    if w != [] {
      var init := w[..|w| - 1];
      assert forall x :: x in init ==> x in w;
      ProcessedStripsSelected(files, init, g);
      SelectedPathsSnoc(w, g);
      LastPathNotEarlier(w, g);
    }
  }

  /** One more entry of the walk: its file is stripped if selected and
      present, and its progress line printed if selected. */
  lemma WalkStep(files: map<string, string>, w: seq<WalkEntry>, i: nat, g: Group)
    requires i < |w|
    ensures var before := Processed(files, w[..i], g);
      Processed(files, w[..i + 1], g) ==
        if Selected(g, w[i].name) && PathOf(w[i]) in before
        then before[PathOf(w[i]) := StripComments(before[PathOf(w[i])])]
        else before
    ensures ProgressLines(w[..i + 1], g) ==
      ProgressLines(w[..i], g) + (if Selected(g, w[i].name) then [ProgressLine(g, PathOf(w[i]))] else [])
  {
    assert w[..i + 1][..i] == w[..i];
  }

  /** The file tree the script runs over, and what it prints. */
  class FileSystem {
    var files: map<string, string>
    var dirs: set<string>
    var console: seq<string>

    constructor (files0: map<string, string>, dirs0: set<string>)
      ensures files == files0 && dirs == dirs0 && console == []
    {
      files, dirs, console := files0, dirs0, [];
    }

    /** `remove_java_comments` and `remove_js_comments`: read, strip, write back. */
    method RemoveComments(path: string)
      requires path in files
      modifies this
      ensures files == old(files)[path := StripComments(old(files)[path])]
      ensures dirs == old(dirs) && console == old(console)
    {
      var content := files[path];
      content := RemoveLineComments(content);
      content := RemoveBlockComments(content);
      files := files[path := content];
    }

    /** `process_java_files` / `process_js_files` over the files that
        `os.walk(root)` reports, in the order it reports them. */
    method ProcessFiles(root: string, walk: seq<WalkEntry>, g: Group)
      requires forall e :: e in walk ==> PathOf(e) in files && StartsWith(e.dir, root)
      modifies this
      ensures files == Processed(old(files), walk, g)
      ensures console == old(console) + ProgressLines(walk, g)
      ensures dirs == old(dirs)
    {
      var i := 0;
      while i < |walk|
        invariant 0 <= i <= |walk|
        invariant files == Processed(old(files), walk[..i], g)
        invariant console == old(console) + ProgressLines(walk[..i], g)
        invariant dirs == old(dirs)
        invariant files.Keys == old(files).Keys
      {
        var e := walk[i];
        WalkStep(old(files), walk, i, g);
        if Selected(g, e.name) {
          var path := JoinPath(e.dir, e.name);
          console := console + [ProgressLine(g, path)];
          RemoveComments(path);
        }
        i := i + 1;
      }
      assert walk[..|walk|] == walk;
    }

    /** The script's main block: each group runs only if its root exists, and
        a missing root is reported without affecting the other group. */
    method RunScript(javaWalk: seq<WalkEntry>, jsWalk: seq<WalkEntry>)
      requires forall e :: e in javaWalk ==> PathOf(e) in files && StartsWith(e.dir, JavaRoot)
      requires forall e :: e in jsWalk ==> PathOf(e) in files && StartsWith(e.dir, JsRoot)
      modifies this
      ensures var afterJava := if JavaRoot in old(dirs) then Processed(old(files), javaWalk, JavaFiles) else old(files);
              files == if JsRoot in old(dirs) then Processed(afterJava, jsWalk, JsFiles) else afterJava
      ensures console == old(console) + JavaReport(old(dirs), javaWalk) + JsReport(old(dirs), jsWalk)
    {
      ghost var before := console;
      if JavaRoot in dirs {
        ProcessFiles(JavaRoot, javaWalk, JavaFiles);
        AppendAfter(before, ProgressLines(javaWalk, JavaFiles), JavaDone);
        console := console + [JavaDone];
      } else {
        console := console + [JavaMissing];
      }
      ghost var middle := console;
      assert middle == before + JavaReport(old(dirs), javaWalk);
      KeysKept(old(files), javaWalk, JavaFiles);
      if JsRoot in dirs {
        ProcessFiles(JsRoot, jsWalk, JsFiles);
        AppendAfter(middle, ProgressLines(jsWalk, JsFiles), JsDone);
        console := console + [JsDone];
      } else {
        console := console + [JsMissing];
      }
    }
  }

  const JavaRoot: string := "backend/src/main/java"
  const JsRoot: string := "FrontEnd/src"

  /** The lines printed after each group. */
  const JavaDone: string := "Java files processed successfully."
  const JavaMissing: string := "Java directory not found: " + JavaRoot
  const JsDone: string := "JavaScript files processed successfully."
  const JsMissing: string := "JavaScript directory not found: " + JsRoot

  function JavaReport(dirs: set<string>, w: seq<WalkEntry>): seq<string>
  {
    if JavaRoot in dirs then ProgressLines(w, JavaFiles) + [JavaDone]
    else [JavaMissing]
  }

  function JsReport(dirs: set<string>, w: seq<WalkEntry>): seq<string>
  {
    if JsRoot in dirs then ProgressLines(w, JsFiles) + [JsDone]
    else [JsMissing]
  }

  lemma AppendAfter(before: seq<string>, lines: seq<string>, last: string)
    ensures before + lines + [last] == before + (lines + [last])
  {
  }

  lemma {:induction false} KeysKept(files: map<string, string>, w: seq<WalkEntry>, g: Group)
    ensures Processed(files, w, g).Keys == files.Keys
    decreases |w|
  {
    if w != [] {
      KeysKept(files, w[..|w| - 1], g);
    }
  }
}

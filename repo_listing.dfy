/**
 * Repository and file listing over the hosting service's client.
 *
 * The client is abstracted as data: the user's repositories in the order the
 * service returns them, and for every repository the answer that
 * `get_contents(path)` gives for each path, as a finite tree. A listing that
 * raises the client's exception is `Fails`.
 */
module RepoListing {

  datatype Option<T> = None | Some(value: T)

  /** The answer of `get_contents(path)`: the entries of a directory, or the client's error. */
  datatype Listing = Listed(items: seq<Content>) | Fails

  /** One content entry: its path, its `type` ("dir", "file", "symlink", "submodule", ...),
      and what `get_contents` answers for its path (consulted for directories only). */
  datatype Content = Content(path: string, kind: string, listing: Listing)

  /** A repository: the login of its owner (a user or an organisation), its name, and
      the answer of `get_contents("")`. */
  datatype Repo = Repo(owner: string, name: string, root: Listing)

  /** The authenticated user as the client sees it: the user's login, the repositories
      `get_user().get_repos()` lists (owned ones, and those reached as a collaborator or
      through an organisation), and whether fetching that list raises the client's error. */
  datatype Client = Client(login: string, repos: seq<Repo>, reposFail: bool)

  /** The repositories `get_user().get_repo(name)` can reach: those under the user's own login. */
  predicate Owned(client: Client, r: Repo) {
    r.owner == client.login
  }

  predicate IsDir(c: Content) {
    c.kind == "dir"
  }

  // ---------------------------------------------------------------------------
  // list_repos and get_repo

  /** `list_repos`: an empty entry for "no selection", then the repository names in
      the client's order; nothing at all when the client fails. */
  function ListRepos(client: Client): (names: seq<string>)
    ensures client.reposFail ==> names == []
    ensures !client.reposFail ==>
      |names| == |client.repos| + 1 && names[0] == "" &&
      forall i :: 0 <= i < |client.repos| ==> names[i + 1] == client.repos[i].name
  {
    if client.reposFail then []
    else [""] + seq(|client.repos|, i requires 0 <= i < |client.repos| => client.repos[i].name)
  }

  /** `get_repo`: the repository of that name under the user's own login, or None when
      the lookup fails. */
  function GetRepo(client: Client, name: string): (r: Option<Repo>)
    ensures r.Some? ==> r.value in client.repos && r.value.name == name && Owned(client, r.value)
    ensures r.None? <==>
      forall i :: 0 <= i < |client.repos| ==> !(Owned(client, client.repos[i]) && client.repos[i].name == name)
    decreases |client.repos|
  {
    if client.repos == [] then None
    else if Owned(client, client.repos[0]) && client.repos[0].name == name then Some(client.repos[0])
    else GetRepo(client.(repos := client.repos[1..]), name)
  }

  /** A name that `list_repos` offers for a repository the user owns is one `get_repo` finds. */
  lemma ListedReposAreFound(client: Client, k: nat)
    requires 0 < k < |ListRepos(client)|
    requires Owned(client, client.repos[k - 1])
    ensures GetRepo(client, ListRepos(client)[k]).Some?
  {
    var names := ListRepos(client);
    assert names[k] == client.repos[k - 1].name;
  }

  /** A repository listed through an organisation, with no repository of the same name
      under the user's login, is offered by `list_repos` but not found by `get_repo`,
      so `list_files` answers [] for it; when the user also owns a repository of that
      name, `get_repo` finds the user's one instead. */
  lemma OrganisationRepoNotFound()
    ensures var client := Client("ann", [Repo("acme", "tools", Listed([]))], false);
      && ListRepos(client) == ["", "tools"]
      && GetRepo(client, "tools").None?
      && ListFilesResult(client, "tools") == []
    ensures var own := Repo("ann", "tools", Fails);
      var client := Client("ann", [Repo("acme", "tools", Listed([])), own], false);
      GetRepo(client, "tools") == Some(own)
  {
  }

  // ---------------------------------------------------------------------------
  // The worklist of list_files

  /** The number of entries in a worklist, counting everything a directory lists. */
  function SizeAll(ws: seq<Content>): nat {
    if ws == [] then 0
    else 1 + (match ws[0].listing case Listed(items) => SizeAll(items) case Fails => 0) + SizeAll(ws[1..])
  }

  lemma {:induction false} SizeAllAppend(a: seq<Content>, b: seq<Content>)
    ensures SizeAll(a + b) == SizeAll(a) + SizeAll(b)
  {
    if a == [] {
      assert a + b == b;
    } else {
      assert (a + b)[0] == a[0] && (a + b)[1..] == a[1..] + b;
      SizeAllAppend(a[1..], b);
    }
  }

  function Prepend(files: seq<string>, rest: Option<seq<string>>): Option<seq<string>> {
    match rest
    case None => None
    case Some(more) => Some(files + more)
  }

  /** What draining a worklist yields: the paths of its non-directory entries as they
      are popped from the front, each popped directory's listing being appended at the
      back; None as soon as a listing fails. */
  function Drain(ws: seq<Content>): Option<seq<string>>
    decreases SizeAll(ws)
  {
    if ws == [] then Some([])
    else if IsDir(ws[0]) then
      match ws[0].listing
      case Fails => None
      case Listed(children) =>
        SizeAllAppend(ws[1..], children);
        Drain(ws[1..] + children)
    else Prepend([ws[0].path], Drain(ws[1..]))
  }

  /** `list_files`: all file paths of the repository, or [] when the name is empty,
      the repository is not found, or the client fails at any point. */
  function ListFilesResult(client: Client, repoName: string): seq<string> {
    if repoName == "" then []
    else match GetRepo(client, repoName)
      case None => []
      case Some(repo) =>
        match repo.root
        case Fails => []
        case Listed(contents) =>
          match Drain(contents)
          case None => []
          case Some(files) => files
  }

  method ListFiles(client: Client, repoName: string) returns (files: seq<string>)
    ensures files == ListFilesResult(client, repoName)
  {
    if repoName == "" {
      return [];
    }
    var repo := GetRepo(client, repoName);
    if repo.None? {
      return [];
    }
    if repo.value.root.Fails? {
      return [];
    }
    var contents := repo.value.root.items;
    ghost var all := Drain(contents);
    files := [];
    assert Prepend(files, all) == all by {
      if all.Some? { assert [] + all.value == all.value; }
    }
    while contents != []
      invariant all == Prepend(files, Drain(contents))
      decreases SizeAll(contents)
    {
      var item := contents[0];
      ghost var before := contents;
      contents := contents[1..];
      if IsDir(item) {
        if item.listing.Fails? {
          assert Drain(before) == None;
          return [];
        }
        SizeAllAppend(contents, item.listing.items);
        contents := contents + item.listing.items;
        assert Drain(before) == Drain(contents);
      } else {
        assert Drain(before) == Prepend([item.path], Drain(contents));
        match Drain(contents) {
          case None =>
          case Some(more) => assert files + ([item.path] + more) == (files + [item.path]) + more;
        }
        files := files + [item.path];
      }
    }
  }

  // ---------------------------------------------------------------------------
  // A reference definition: the depth-first flattening of the tree

  /** The paths of the non-directory entries reachable from a worklist, depth first. */
  function Flatten(ws: seq<Content>): seq<string> {
    if ws == [] then []
    else
      (if !IsDir(ws[0]) then [ws[0].path]
       else match ws[0].listing case Listed(items) => Flatten(items) case Fails => [])
      + Flatten(ws[1..])
  }

  /** Some directory reachable from the worklist has a listing that fails. */
  predicate AnyFails(ws: seq<Content>) {
    ws != [] &&
    ((IsDir(ws[0]) && match ws[0].listing case Fails => true case Listed(items) => AnyFails(items))
     || AnyFails(ws[1..]))
  }

  lemma {:induction false} FlattenAppend(a: seq<Content>, b: seq<Content>)
    ensures Flatten(a + b) == Flatten(a) + Flatten(b)
    ensures AnyFails(a + b) <==> AnyFails(a) || AnyFails(b)
  {
    if a == [] {
      assert a + b == b;
    } else {
      assert (a + b)[0] == a[0] && (a + b)[1..] == a[1..] + b;
      FlattenAppend(a[1..], b);
    }
  }

  /** Draining fails exactly when some reachable directory listing fails; otherwise it
      yields every non-directory path of the tree, each as often as it is reachable,
      and nothing else (in breadth-first rather than depth-first order). */
  lemma {:induction false} DrainIsFlatten(ws: seq<Content>)
    ensures Drain(ws).None? <==> AnyFails(ws)
    ensures Drain(ws).Some? ==> multiset(Drain(ws).value) == multiset(Flatten(ws))
    decreases SizeAll(ws)
  {
    if ws != [] {
      var rest := ws[1..];
      if IsDir(ws[0]) {
        match ws[0].listing
        case Fails =>
        case Listed(children) =>
          SizeAllAppend(rest, children);
          DrainIsFlatten(rest + children);
          FlattenAppend(rest, children);
      } else {
        DrainIsFlatten(rest);
      }
    }
  }

  /** The entries of a worklist that are not directories, in order. */
  function TopFiles(ws: seq<Content>): seq<string> {
    if ws == [] then []
    else (if IsDir(ws[0]) then [] else [ws[0].path]) + TopFiles(ws[1..])
  }

  /** The listings of the worklist's directories, concatenated in order. */
  function Children(ws: seq<Content>): seq<Content> {
    if ws == [] then []
    else (if IsDir(ws[0]) && ws[0].listing.Listed? then ws[0].listing.items else []) + Children(ws[1..])
  }

  /** A directory of the worklist itself (not deeper) whose listing fails. */
  predicate TopFails(ws: seq<Content>) {
    ws != [] && ((IsDir(ws[0]) && ws[0].listing.Fails?) || TopFails(ws[1..]))
  }

  lemma PrependTwice(a: seq<string>, b: seq<string>, rest: Option<seq<string>>)
    ensures Prepend(a, Prepend(b, rest)) == Prepend(a + b, rest)
  {
    if rest.Some? {
      assert a + (b + rest.value) == (a + b) + rest.value;
    }
  }

  /** Popping a listed directory off the front of `ws + tail` appends its listing. */
  lemma DrainDirStep(ws: seq<Content>, tail: seq<Content>)
    requires ws != [] && IsDir(ws[0]) && ws[0].listing.Listed?
    ensures Drain(ws + tail) == Drain(ws[1..] + (tail + ws[0].listing.items))
  {
    var w := ws + tail;
    var children := ws[0].listing.items;
    assert w != [] && w[0] == ws[0] && IsDir(w[0]) && w[0].listing == Listed(children);
    assert w[1..] + children == ws[1..] + (tail + children) by { assert w[1..] == ws[1..] + tail; }
  }

  /** Popping a non-directory off the front of `ws + tail` emits its path. */
  lemma DrainFileStep(ws: seq<Content>, tail: seq<Content>)
    requires ws != [] && !IsDir(ws[0])
    ensures Drain(ws + tail) == Prepend([ws[0].path], Drain(ws[1..] + tail))
  {
    assert (ws + tail)[0] == ws[0] && (ws + tail)[1..] == ws[1..] + tail;
  }

  lemma {:induction false} DrainLevelsFrom(ws: seq<Content>, tail: seq<Content>)
    requires !TopFails(ws)
    ensures Drain(ws + tail) == Prepend(TopFiles(ws), Drain(tail + Children(ws)))
  {
    if ws == [] {
      assert ws + tail == tail == tail + Children(ws);
      if Drain(tail).Some? {
        assert TopFiles(ws) + Drain(tail).value == Drain(tail).value;
      }
    } else if IsDir(ws[0]) {
      assert ws[0].listing.Listed? && !TopFails(ws[1..]);
      var children := ws[0].listing.items;
      assert TopFiles(ws) == [] + TopFiles(ws[1..]) == TopFiles(ws[1..]);
      assert Children(ws) == children + Children(ws[1..]);
      DrainDirStep(ws, tail);
      DrainLevelsFrom(ws[1..], tail + children);
      assert (tail + children) + Children(ws[1..]) == tail + Children(ws);
    } else {
      assert !TopFails(ws[1..]);
      assert TopFiles(ws) == [ws[0].path] + TopFiles(ws[1..]);
      assert Children(ws) == [] + Children(ws[1..]) == Children(ws[1..]);
      DrainFileStep(ws, tail);
      DrainLevelsFrom(ws[1..], tail);
      PrependTwice([ws[0].path], TopFiles(ws[1..]), Drain(tail + Children(ws[1..])));
    }
  }

  /** Breadth-first order: when none of the worklist's own directories fails, its
      non-directory entries come first, in order, followed by whatever draining their
      directories' listings (concatenated in order) yields. */
  lemma DrainLevels(ws: seq<Content>)
    requires !TopFails(ws)
    ensures Drain(ws) == Prepend(TopFiles(ws), Drain(Children(ws)))
  {
    DrainLevelsFrom(ws, []);
    assert ws + [] == ws;
    assert [] + Children(ws) == Children(ws);
  }

  /** Directories never appear in the result: every returned path is the path of a
      non-directory entry reachable from the repository root, and when no listing fails
      every such path is returned as often as it is reachable. */
  lemma ListFilesIsTreeFiles(client: Client, repoName: string)
    ensures repoName == "" ==> ListFilesResult(client, repoName) == []
    ensures GetRepo(client, repoName).None? ==> ListFilesResult(client, repoName) == []
    ensures repoName != "" && GetRepo(client, repoName).Some? ==>
      match GetRepo(client, repoName).value.root
      case Fails => ListFilesResult(client, repoName) == []
      case Listed(contents) =>
        && (AnyFails(contents) ==> ListFilesResult(client, repoName) == [])
        && (!AnyFails(contents) ==>
              multiset(ListFilesResult(client, repoName)) == multiset(Flatten(contents)))
  {
    if repoName != "" && GetRepo(client, repoName).Some? {
      match GetRepo(client, repoName).value.root {
        case Fails =>
        case Listed(contents) => DrainIsFlatten(contents);
      }
    }
  }

  /** A small tree: the root lists `a.py` and directory `src`, which lists `src/b.py`;
      the result is both files, the root-level one first. */
  lemma ListFilesExample()
    ensures ListFilesResult(
      Client("ann", [Repo("ann", "demo", Listed([
        Content("src", "dir", Listed([Content("src/b.py", "file", Listed([]))])),
        Content("a.py", "file", Listed([]))]))], false),
      "demo") == ["a.py", "src/b.py"]
  {
    var b := Content("src/b.py", "file", Listed([]));
    var src := Content("src", "dir", Listed([b]));
    var a := Content("a.py", "file", Listed([]));
    var client := Client("ann", [Repo("ann", "demo", Listed([src, a]))], false);
    assert GetRepo(client, "demo") == Some(client.repos[0]);
    assert IsDir(src) && !IsDir(a) && !IsDir(b);
    assert [src, a][1..] + [b] == [a, b];
    assert [b][1..] == [] && [a, b][1..] == [b];
    assert Drain([b]) == Prepend(["src/b.py"], Drain([]));
    assert ["src/b.py"] + [] == ["src/b.py"];
    assert Drain([b]) == Some(["src/b.py"]);
    assert Drain([a, b]) == Prepend(["a.py"], Drain([b]));
    assert ["a.py"] + ["src/b.py"] == ["a.py", "src/b.py"];
    assert Drain([a, b]) == Some(["a.py", "src/b.py"]);
  }
}

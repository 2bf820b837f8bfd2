/**
 * Cloning a git repository given as "URL" or "URL@ref". The clone, the worktree lookup and the
 * checkout are operations of the git library and are parameters here; the model keeps how the
 * ref is classified and which checkouts are attempted, in which order, with which options.
 */
module GitClone {
  import opened Wrappers
  import opened GoStrings

  predicate HexDigit(c: char) {
    ('0' <= c <= '9') || ('a' <= c <= 'f') || ('A' <= c <= 'F')
  }

  /** isHex: every character is a hexadecimal digit (so the empty text is hex). */
  method IsHex(s: string) returns (b: bool)
    ensures b <==> forall i :: 0 <= i < |s| ==> HexDigit(s[i])
  {
    for i := 0 to |s|
      invariant forall j :: 0 <= j < i ==> HexDigit(s[j])
    {
      var c := s[i];
      if (c < '0' || c > '9') && (c < 'a' || c > 'f') && (c < 'A' || c > 'F') {
        return false;
      }
    }
    return true;
  }

  /** A ref that names a commit: forty hexadecimal digits. */
  predicate CommitHash(ref: string) {
    |ref| == 40 && forall i :: 0 <= i < |ref| ==> HexDigit(ref[i])
  }

  /** The checkout options: a commit hash, or a reference name, with Create false and Force true. */
  datatype CheckoutOptions = CheckoutOptions(hash: string, branch: string, create: bool, force: bool)

  /** plumbing.NewTagReferenceName and plumbing.NewBranchReferenceName. */
  function TagReference(name: string): string { "refs/tags/" + name }
  function BranchReference(name: string): string { "refs/heads/" + name }

  /** The git operations: clone a URL, open the worktree, check out with some options (nil on success). */
  datatype Git = Git(
    clone: string -> Option<string>,
    worktree: Option<string>,
    checkout: CheckoutOptions -> Option<string>)

  /**
   * CloneRepo: splits the repository at '@'; more than one '@' is an error before anything is
   * cloned. The URL part is cloned; without a ref nothing is checked out. A forty-digit hex ref
   * is checked out as a commit; any other ref is tried as a tag and, when that fails, as a branch.
   * Returns the error (if any) and the checkout options tried, in order.
   */
  method CloneRepo(repo: string, git: Git) returns (err: Option<string>, tried: seq<CheckoutOptions>)
    ensures |Split(repo, '@')| > 2 ==> err == Some("invalid repository URL format " + Quote(repo)) && tried == []
    ensures |Split(repo, '@')| <= 2 && git.clone(Split(repo, '@')[0]).Some? ==>
      err == Some("failed to clone repo " + Quote(repo) + ": " + git.clone(Split(repo, '@')[0]).value) && tried == []
    ensures |Split(repo, '@')| == 1 ==> tried == [] && (err.None? <==> git.clone(repo).None?)
    ensures |Split(repo, '@')| == 2 && git.clone(Split(repo, '@')[0]).None? ==>
      var ref := Split(repo, '@')[1];
      var commit := CheckoutOptions(ref, "", false, true);
      var tag := CheckoutOptions("", TagReference(ref), false, true);
      var branch := CheckoutOptions("", BranchReference(ref), false, true);
      if git.worktree.Some? then
        err == Some("failed to get worktree: " + git.worktree.value) && tried == []
      else if CommitHash(ref) then
        tried == [commit] &&
        err == (if git.checkout(commit).Some? then Some("failed to checkout " + Quote(ref) + ": " + git.checkout(commit).value) else None)
      else if git.checkout(tag).None? then
        tried == [tag] && err == None
      else
        tried == [tag, branch] &&
        err == (if git.checkout(branch).Some? then Some("failed to checkout " + Quote(ref) + ": " + git.checkout(branch).value) else None)
  {
    var atSplit := Split(repo, '@');
    JoinSplit(repo, '@');
    tried := [];
    if |atSplit| > 2 {
      return Some("invalid repository URL format " + Quote(repo)), tried;
    }
    var cloneErr := git.clone(atSplit[0]);
    if cloneErr.Some? {
      return Some("failed to clone repo " + Quote(repo) + ": " + cloneErr.value), tried;
    }
    if |atSplit| == 1 {
      return None, tried;
    }
    if git.worktree.Some? {
      return Some("failed to get worktree: " + git.worktree.value), tried;
    }
    var ref := atSplit[1];
    var opts := CheckoutOptions("", "", false, true);
    var hex := IsHex(ref);
    if |ref| == 40 && hex {
      opts := opts.(hash := ref);
    } else {
      opts := opts.(branch := TagReference(ref));
      tried := tried + [opts];
      if git.checkout(opts).None? {
        return None, tried;
      }
      opts := opts.(branch := BranchReference(ref));
    }
    tried := tried + [opts];
    var e := git.checkout(opts);
    if e.Some? {
      return Some("failed to checkout " + Quote(ref) + ": " + e.value), tried;
    }
    err := None;
  }

  /** A repository without '@' is the URL itself. */
  lemma NoRefIsWholeUrl(repo: string)
    requires '@' !in repo
    ensures Split(repo, '@') == [repo]
  {
    SplitNoSep(repo, '@');
  }

  /** "URL@ref" with an '@'-free URL and ref splits into exactly those two parts. */
  lemma {:induction false} UrlAtRef(url: string, ref: string)
    requires '@' !in url && '@' !in ref
    ensures Split(url + "@" + ref, '@') == [url, ref]
    decreases |url|
  {
    if |url| == 0 {
      assert url + "@" + ref == ['@'] + ref;
      assert (url + "@" + ref)[1..] == ref;
      SplitNoSep(ref, '@');
    } else {
      UrlAtRef(url[1..], ref);
      var s := url + "@" + ref;
      assert s[1..] == url[1..] + "@" + ref;
      assert s[0] == url[0] && url[0] != '@';
      assert [url[0]] + url[1..] == url;
    }
  }

  /** Two '@' or more in the repository string is rejected. */
  lemma {:induction false} TwoAtsRejected(a: string, b: string, c: string)
    ensures |Split(a + "@" + b + "@" + c, '@')| > 2
    decreases |a|
  {
    if |a| == 0 {
      assert a + "@" + b + "@" + c == ['@'] + (b + "@" + c);
      assert (['@'] + (b + "@" + c))[1..] == b + "@" + c;
      OneAtSplitsInTwo(b, c);
    } else {
      TwoAtsRejected(a[1..], b, c);
      assert (a + "@" + b + "@" + c)[1..] == a[1..] + "@" + b + "@" + c;
    }
  }

  /** A text with an '@' splits into at least two parts. */
  lemma {:induction false} OneAtSplitsInTwo(b: string, c: string)
    ensures |Split(b + "@" + c, '@')| >= 2
    decreases |b|
  {
    if |b| == 0 {
      assert b + "@" + c == ['@'] + c;
      assert (['@'] + c)[1..] == c;
    } else {
      OneAtSplitsInTwo(b[1..], c);
      assert (b + "@" + c)[1..] == b[1..] + "@" + c;
    }
  }
}

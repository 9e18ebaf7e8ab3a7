/** The add-bookmark form (src/components/AddBookmarkDialog.tsx): its fields, the tag editor, the
    inline "new folder" form, the site lookup when the URL field loses focus, and submission into
    the store. As in `Store`, the `URL` parser is the parameter `parseHost`, which yields the
    hostname or `None` where `new URL` throws; `uuidv4()` and `Date.now()` are `newId` and `clock`. */
module AddDialog {
  import opened Types
  import opened Seqs
  import opened Text
  import opened Store

  /** The text starts with "http://" or "https://". */
  predicate HasScheme(s: string) {
    StartsWith(s, "http://") || StartsWith(s, "https://")
  }

  /** Prefixes "https://" to text that has neither scheme. */
  function WithScheme(s: string): (r: string)
    ensures HasScheme(r)
    ensures |s| <= |r| && r[|r| - |s|..] == s
    ensures HasScheme(s) ==> r == s
  {
    if HasScheme(s) then s else "https://" + s
  }

  /** The URL that submission stores: the field trimmed, with a scheme. */
  function NormalizeUrl(url: string): (r: string)
    ensures HasScheme(r)
    ensures |Trim(url)| <= |r| && r[|r| - |Trim(url)|..] == Trim(url)
    ensures HasScheme(Trim(url)) ==> r == Trim(url)
  {
    WithScheme(Trim(url))
  }

  /** Normalizing a normalized URL changes nothing. */
  lemma NormalizeIdempotent(url: string)
    ensures NormalizeUrl(NormalizeUrl(url)) == NormalizeUrl(url)
  {
    var t := Trim(url);
    var _, _ := TrimSpec(url);
    var r := WithScheme(t);
    if t == [] {
      assert r == "https://";
    } else {
      assert r[|r| - 1] == t[|t| - 1];
    }
    assert IsTrimmed(r);
    TrimTrimmed(r);
  }

  /** The title made from a hostname: the first "www." removed, the text up to the first dot, its
      first letter upper-cased. */
  function TitleFromHost(host: string): (r: string)
    ensures '.' !in r
  {
    var name := BeforeFirst(ReplaceFirst(host, "www.", ""), '.');
    var r := UpperFirst(name);
    assert forall i :: 0 <= i < |r| ==> r[i] != '.' by {
      forall i | 0 <= i < |r| ensures r[i] != '.' {
        if i == 0 {
          assert name[0] != '.';
        } else {
          assert r[1..][i - 1] == name[1..][i - 1];
        }
      }
    }
    r
  }

  /** Text without "www." in it is left as it is by replacing the first "www.". */
  lemma {:induction false} ReplaceAbsent(s: string, pat: string, rep: string)
    requires pat != [] && !Contains(s, pat)
    ensures ReplaceFirst(s, pat, rep) == s
    decreases |s|
  {
    assert s[0..] == s;
    if s != [] {
      forall i | 0 <= i <= |s[1..]| - |pat| ensures !(pat <= s[1..][i..]) {
        assert s[1..][i..] == s[i + 1..];
      }
      ReplaceAbsent(s[1..], pat, rep);
    }
  }

  /** A leading "www." does not change the title. */
  lemma TitleIgnoresWww(host: string)
    requires !Contains(host, "www.")
    ensures TitleFromHost("www." + host) == TitleFromHost(host)
  {
    ReplaceAbsent(host, "www.", "");
    assert "www." <= "www." + host;
    assert ("www." + host)[4..] == host;
    assert ReplaceFirst("www." + host, "www.", "") == host;
  }

  /** Positions where the pattern does not start are copied by replacing its first occurrence. */
  lemma {:induction false} ReplaceSkip(s: string, pat: string, rep: string, k: nat)
    requires k <= |s|
    requires forall j :: 0 <= j < k ==> !(pat <= s[j..])
    ensures ReplaceFirst(s, pat, rep) == s[..k] + ReplaceFirst(s[k..], pat, rep)
    decreases k
  {
    if k > 0 {
      var t := s[1..];
      assert s[0..] == s;
      forall j | 0 <= j < k - 1 ensures !(pat <= t[j..]) {
        assert t[j..] == s[j + 1..];
      }
      ReplaceSkip(t, pat, rep, k - 1);
      assert t[k - 1..] == s[k..];
      assert s[..k] == [s[0]] + t[..k - 1];
    }
  }

  /** Replacing the first occurrence replaces the one at `k` when none starts before it. */
  lemma ReplaceAt(s: string, pat: string, rep: string, k: nat)
    requires k + |pat| <= |s| && s[k..k + |pat|] == pat
    requires forall j :: 0 <= j < k ==> !(pat <= s[j..])
    ensures ReplaceFirst(s, pat, rep) == s[..k] + rep + s[k + |pat|..]
  {
    ReplaceSkip(s, pat, rep, k);
    var t := s[k..];
    assert pat <= t;
    assert t[|pat|..] == s[k + |pat|..];
  }

  /** Text without `c` is kept whole in front of what comes before the first `c`. */
  lemma {:induction false} BeforeFirstAppend(a: string, b: string, c: char)
    requires c !in a
    ensures BeforeFirst(a + b, c) == a + BeforeFirst(b, c)
    decreases |a|
  {
    if a != [] {
      assert (a + b)[1..] == a[1..] + b;
      BeforeFirstAppend(a[1..], b, c);
      assert a == [a[0]] + a[1..];
    } else {
      assert a + b == b;
    }
  }

  /** The title drops the first "www." wherever it occurs, not only at the front: the text before
      it is kept, and the text after it is cut at its first dot ("www.github.com" is titled
      "Github", and "mywww.site.com" is titled "Mysite"). */
  lemma TitleDropsFirstWww(a: string, b: string)
    requires forall i :: 0 <= i < |a| ==> a[i] != 'w' && a[i] != '.'
    ensures TitleFromHost(a + "www." + b) == UpperFirst(a + BeforeFirst(b, '.'))
  {
    var host := a + "www." + b;
    forall j | 0 <= j < |a| ensures !("www." <= host[j..]) {
      assert host[j..][0] == a[j];
    }
    assert host[|a|..|a| + 4] == "www.";
    ReplaceAt(host, "www.", "", |a|);
    assert host[..|a|] + "" + host[|a| + 4..] == a + b;
    BeforeFirstAppend(a, b, '.');
  }

  /** What a submission does. */
  datatype Outcome =
    | Ignored                        // the URL or the folder field is empty
    | Invalid                        // the normalized URL does not parse; an alert is shown
    | Added(data: AddBookmarkData)   // handed to the store

  /** `handleSubmit`'s decision and the data it hands on. */
  function Submit(url: string, title: string, icon: string, folderId: string, tags: seq<string>,
                  parseHost: string -> Option<string>): (r: Outcome)
    ensures r == Ignored <==> url == "" || folderId == ""
    ensures r == Invalid <==> url != "" && folderId != "" && parseHost(NormalizeUrl(url)).None?
    ensures r.Added? ==> HasScheme(r.data.url) && parseHost(r.data.url).Some? && r.data.url == NormalizeUrl(url)
    ensures r.Added? ==> r.data.icon == icon && r.data.folderId == folderId && r.data.tags == tags
    ensures r.Added? && Trim(title) != "" ==> r.data.title == Trim(title)
    ensures r.Added? && Trim(title) == "" ==> r.data.title == TitleFromHost(parseHost(r.data.url).value)
  {
    if url == "" || folderId == "" then Ignored
    else
      var finalUrl := NormalizeUrl(url);
      match parseHost(finalUrl)
      case None => Invalid
      case Some(host) =>
        var finalTitle := if Trim(title) != "" then Trim(title) else TitleFromHost(host);
        Added(AddBookmarkData(finalUrl, finalTitle, icon, folderId, tags))
  }

  /** Submitting the URL the form would store gives the same outcome as submitting what was typed. */
  lemma SubmitNormalized(url: string, title: string, icon: string, folderId: string, tags: seq<string>,
                         parseHost: string -> Option<string>)
    requires url != ""
    ensures Submit(NormalizeUrl(url), title, icon, folderId, tags, parseHost) == Submit(url, title, icon, folderId, tags, parseHost)
  {
    NormalizeIdempotent(url);
  }

  /** The folder the form starts in: the selected folder, or "root" when none is selected. */
  function InitialFolder(selectedFolderId: Option<string>): (r: string)
    ensures r != ""
    ensures Truthy(selectedFolderId) ==> r == selectedFolderId.value
  {
    if Truthy(selectedFolderId) then selectedFolderId.value else RootId
  }

  /** `t => t !== tag`. */
  function OtherThan(tag: string): string -> bool {
    (t: string) => t != tag
  }

  /** The title `handleUrlBlur` treats as missing: "unknown site". */
  const UnknownSite: string := "未知网站"

  class AddBookmarkForm {
    var url: string
    var title: string
    var icon: string
    var folderId: string
    var tagInput: string
    var selectedTags: seq<string>
    var showNewFolder: bool
    var newFolderName: string
    var newFolderParentId: Option<string>

    /** The first render. */
    constructor (selectedFolderId: Option<string>)
      ensures url == "" && title == "" && icon == "" && tagInput == "" && selectedTags == []
      ensures folderId == InitialFolder(selectedFolderId)
      ensures !showNewFolder && newFolderName == "" && newFolderParentId == None
    {
      url, title, icon, tagInput, selectedTags := "", "", "", "", [];
      folderId := InitialFolder(selectedFolderId);
      showNewFolder, newFolderName, newFolderParentId := false, "", None;
    }

    /** The effect that runs when the dialog opens: the form is cleared, except the inline "new
        folder" name and parent, which are kept. */
    method Reset(selectedFolderId: Option<string>)
      modifies this
      ensures url == "" && title == "" && icon == "" && tagInput == "" && selectedTags == []
      ensures folderId == InitialFolder(selectedFolderId) && !showNewFolder
      ensures newFolderName == old(newFolderName) && newFolderParentId == old(newFolderParentId)
    {
      url, title, icon, tagInput, selectedTags := "", "", "", "", [];
      folderId := InitialFolder(selectedFolderId);
      showNewFolder := false;
    }

    /** `fetchSiteInfo`: when the address parses, the icon becomes the host's favicon and a blank
        title becomes the title made from the host; otherwise nothing changes. */
    method FetchSiteInfo(siteUrl: string, parseHost: string -> Option<string>)
      modifies this
      ensures parseHost(WithScheme(siteUrl)).None? ==> icon == old(icon) && title == old(title)
      ensures parseHost(WithScheme(siteUrl)).Some? ==> icon == GetFavicon(WithScheme(siteUrl), parseHost) && icon != ""
      ensures parseHost(WithScheme(siteUrl)).Some? ==>
        var host := parseHost(WithScheme(siteUrl)).value;
        icon == SiteIcon(host) &&
        title == (if Trim(old(title)) == "" then TitleFromHost(host) else old(title))
      ensures url == old(url) && folderId == old(folderId) && tagInput == old(tagInput) && selectedTags == old(selectedTags)
      ensures showNewFolder == old(showNewFolder) && newFolderName == old(newFolderName) && newFolderParentId == old(newFolderParentId)
    {
      var host := parseHost(WithScheme(siteUrl));
      if host.Some? {
        icon := SiteIcon(host.value);
        if Trim(title) == "" {
          title := TitleFromHost(host.value);
        }
      }
    }

    /** `handleUrlBlur`: looks the site up when there is a URL and the title is empty or "unknown
        site". A URL that parses sets the icon to the host's favicon; the lookup keeps any title
        that is not blank, so "unknown site" is never replaced. Otherwise nothing changes. */
    method HandleUrlBlur(parseHost: string -> Option<string>)
      modifies this
      ensures old(url) == "" || (old(title) != "" && old(title) != UnknownSite) ==> icon == old(icon) && title == old(title)
      ensures old(url) != "" && old(title) == "" && parseHost(WithScheme(old(url))).Some? ==>
        var host := parseHost(WithScheme(old(url))).value;
        icon == SiteIcon(host) && title == TitleFromHost(host)
      ensures old(title) == UnknownSite ==> title == UnknownSite
      ensures if old(url) != "" && (old(title) == "" || old(title) == UnknownSite) && parseHost(WithScheme(old(url))).Some? then
          var host := parseHost(WithScheme(old(url))).value;
          icon == SiteIcon(host) && title == (if old(title) == "" then TitleFromHost(host) else old(title))
        else icon == old(icon) && title == old(title)
      ensures url == old(url) && folderId == old(folderId) && tagInput == old(tagInput) && selectedTags == old(selectedTags)
      ensures showNewFolder == old(showNewFolder) && newFolderName == old(newFolderName) && newFolderParentId == old(newFolderParentId)
    {
      if url != "" && (title == "" || title == UnknownSite) {
        if title == UnknownSite {
          assert UnknownSite[0] == '未' && !IsSpace('未') && UnknownSite[|UnknownSite| - 1] == '站' && !IsSpace('站');
          assert IsTrimmed(UnknownSite);
          TrimTrimmed(UnknownSite);
        }
        FetchSiteInfo(url, parseHost);
      }
    }

    /** `handleAddTag`: the white-space separated words of the tag field are appended as tags,
        and the field is cleared. The new tags hold exactly the field's non-white-space characters,
        and words typed one space apart come back as typed. */
    method HandleAddTag()
      modifies this
      ensures selectedTags == old(selectedTags) + Words(old(tagInput)) && tagInput == ""
      ensures forall k :: |old(selectedTags)| <= k < |selectedTags| ==> IsWord(selectedTags[k])
      ensures Concat(selectedTags[|old(selectedTags)|..]) == Filter(old(tagInput), c => !IsSpace(c))
      ensures url == old(url) && title == old(title) && icon == old(icon) && folderId == old(folderId)
      ensures showNewFolder == old(showNewFolder) && newFolderName == old(newFolderName) && newFolderParentId == old(newFolderParentId)
    {
      var added := Words(tagInput);
      WordsKeepCharacters(tagInput);
      selectedTags := selectedTags + added;
      assert selectedTags[|old(selectedTags)|..] == added;
      tagInput := "";
    }

    /** `handleRemoveTag`: every copy of the tag goes; the other tags stay, in their order, each with
        its number of copies. */
    method HandleRemoveTag(tag: string)
      modifies this
      ensures tag !in selectedTags
      ensures forall t :: t != tag ==> multiset(selectedTags)[t] == multiset(old(selectedTags))[t]
      ensures selectedTags == Filter(old(selectedTags), OtherThan(tag))
      ensures url == old(url) && title == old(title) && icon == old(icon) && folderId == old(folderId) && tagInput == old(tagInput)
      ensures showNewFolder == old(showNewFolder) && newFolderName == old(newFolderName) && newFolderParentId == old(newFolderParentId)
    {
      FilterMultiset(selectedTags, OtherThan(tag));
      selectedTags := Filter(selectedTags, OtherThan(tag));
    }

    /** The "+" button beside the folder list: opens the inline "new folder" form with the top level
        as its parent. */
    method OpenNewFolder()
      modifies this
      ensures showNewFolder && newFolderParentId == None && newFolderName == old(newFolderName)
      ensures url == old(url) && title == old(title) && icon == old(icon) && folderId == old(folderId)
      ensures tagInput == old(tagInput) && selectedTags == old(selectedTags)
    {
      newFolderParentId := None;
      showNewFolder := true;
    }

    /** The inline form's cancel button: closes it and clears its name and parent. */
    method CancelNewFolder()
      modifies this
      ensures !showNewFolder && newFolderName == "" && newFolderParentId == None
      ensures url == old(url) && title == old(title) && icon == old(icon) && folderId == old(folderId)
      ensures tagInput == old(tagInput) && selectedTags == old(selectedTags)
    {
      showNewFolder := false;
      newFolderName := "";
      newFolderParentId := None;
    }

    /** `handleCreateFolder`: with a name that is not blank, the store creates the folder under the
        chosen parent, the form files the bookmark into it and the inline form is cleared; with a
        blank name nothing happens. */
    method HandleCreateFolder(store: BookmarkStore, newId: string, clock: Clock)
      modifies this, store
      ensures Trim(old(newFolderName)) == "" ==> unchanged(this) && unchanged(store)
      ensures Trim(old(newFolderName)) != "" ==>
        store.folders == old(store.folders) + [Folder(newId, Trim(old(newFolderName)), old(newFolderParentId), true, clock(0), clock(1))] &&
        folderId == newId && !showNewFolder && newFolderName == "" && newFolderParentId == None
      ensures url == old(url) && title == old(title) && icon == old(icon) && tagInput == old(tagInput) && selectedTags == old(selectedTags)
      ensures store.bookmarks == old(store.bookmarks) && store.selectedFolderId == old(store.selectedFolderId)
      ensures store.selectedBookmarkIds == old(store.selectedBookmarkIds) && store.searchQuery == old(store.searchQuery)
      ensures store.isBatchMode == old(store.isBatchMode)
    {
      var name := Trim(newFolderName);
      if name != "" {
        var id := store.CreateFolder(name, newFolderParentId, newId, clock);
        folderId := id;
        showNewFolder := false;
        newFolderName := "";
        newFolderParentId := None;
      }
    }

    /** `handleSubmit` followed by the app's `handleAddBookmark`: a form that passes the checks
        always becomes a bookmark, because its URL parses, so the store's favicon fallback cannot
        fail. */
    method HandleSubmit(store: BookmarkStore, parseHost: string -> Option<string>, newId: string, clock: Clock) returns (r: Outcome)
      modifies store
      ensures r == Submit(url, title, icon, folderId, selectedTags, parseHost)
      ensures !r.Added? ==> store.bookmarks == old(store.bookmarks)
      ensures r.Added? ==>
        var d := r.data;
        store.bookmarks == old(store.bookmarks) +
          [Bookmark(newId, d.title, d.url, if icon != "" then icon else FaviconUrl(parseHost(d.url).value),
                    folderId, selectedTags, false, clock(0), clock(1))]
      ensures store.folders == old(store.folders) && store.selectedFolderId == old(store.selectedFolderId)
      ensures store.selectedBookmarkIds == old(store.selectedBookmarkIds) && store.searchQuery == old(store.searchQuery)
      ensures store.isBatchMode == old(store.isBatchMode)
    {
      r := Submit(url, title, icon, folderId, selectedTags, parseHost);
      if r.Added? {
        var b := store.AddBookmark(r.data, parseHost, newId, clock);
      }
    }
  }
}

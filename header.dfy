/** `pkg/dispatch/plugin/header.go`: the header image plugin. The HTML parser is abstract:
    `images` holds, in document order, the attributes of each `<img>` element, or is `None`
    when the content does not parse. `utils.IsUrl` is the parameter `isUrl`. */
module Header {
  import opened Wrappers
  import DocModel

  type Attrs = map<string, string>

  /** The attributes that may carry an image's address, in the order they are tried. */
  const SourceAttrs: seq<string> := ["src", "data-src", "data-src-retina", "data-original"]

  /** The first attribute from position `i` of `SourceAttrs` on that is present and holds a
      URL, as its value. */
  function SourceFrom(isUrl: string -> bool, attrs: Attrs, i: nat): (r: Option<string>)
    requires i <= |SourceAttrs|
    ensures r.Some? ==> exists k :: i <= k < |SourceAttrs| && SourceAttrs[k] in attrs && r.value == attrs[SourceAttrs[k]] && isUrl(r.value)
    decreases |SourceAttrs| - i
  {
    if i == |SourceAttrs| then None
    else if SourceAttrs[i] in attrs && isUrl(attrs[SourceAttrs[i]]) then Some(attrs[SourceAttrs[i]])
    else SourceFrom(isUrl, attrs, i + 1)
  }

  /** The address an image offers. */
  function ImageSource(isUrl: string -> bool, attrs: Attrs): Option<string>
  {
    SourceFrom(isUrl, attrs, 0)
  }

  /** The header image of a list of images: the address of the first image that offers
      one, or "" when none does. */
  function HeaderOf(isUrl: string -> bool, images: seq<Attrs>): string
    decreases |images|
  {
    if images == [] then ""
    else match ImageSource(isUrl, images[0])
      case Some(u) => u
      case None => HeaderOf(isUrl, images[1..])
  }

  /** The body of the per-image callback: the four attributes are tried in turn. */
  method ImageCallback(isUrl: string -> bool, attrs: Attrs) returns (found: bool, url: string)
    ensures found <==> ImageSource(isUrl, attrs).Some?
    ensures found ==> url == ImageSource(isUrl, attrs).value
  {
    if "src" in attrs && isUrl(attrs["src"]) {
      return true, attrs["src"];
    }
    if "data-src" in attrs && isUrl(attrs["data-src"]) {
      return true, attrs["data-src"];
    }
    if "data-src-retina" in attrs && isUrl(attrs["data-src-retina"]) {
      return true, attrs["data-src-retina"];
    }
    if "data-original" in attrs && isUrl(attrs["data-original"]) {
      return true, attrs["data-original"];
    }
    return false, "";
  }

  /** HeaderImgPlugin.Run: on a parse error the document is left alone and an error is
      returned; otherwise the header image is overwritten with the first address found,
      "" when there is none, and nothing else changes. */
  method Run(isUrl: string -> bool, doc: DocModel.Document, images: Option<seq<Attrs>>)
    returns (doc': DocModel.Document, failed: bool)
    ensures failed <==> images.None?
    ensures failed ==> doc' == doc
    ensures !failed ==> doc' == doc.(headerImage := HeaderOf(isUrl, images.value))
  {
    if images.None? {
      return doc, true;
    }
    var imgs := images.value;
    var headerImgUrl := "";
    var i := 0;
    while i < |imgs|
      invariant 0 <= i <= |imgs|
      invariant HeaderOf(isUrl, imgs) == HeaderOf(isUrl, imgs[i..])
      invariant headerImgUrl == ""
      decreases |imgs| - i
    {
      var found, url := ImageCallback(isUrl, imgs[i]);
      assert imgs[i..][0] == imgs[i];
      if found {
        headerImgUrl := url;
        break;
      }
      assert imgs[i..][1..] == imgs[i + 1..];
      i := i + 1;
    }
    if i == |imgs| {
      assert imgs[i..] == [];
    }
    doc' := doc.(headerImage := headerImgUrl);
    failed := false;
  }

  // ---------------------------------------------------------------------------------------
  // Properties

  /** An image offers the value of the first attribute of the priority list that is present
      and holds a URL. */
  lemma {:induction false} SourceFromFirst(isUrl: string -> bool, attrs: Attrs, i: nat, k: nat)
    requires i <= k < |SourceAttrs|
    requires SourceAttrs[k] in attrs && isUrl(attrs[SourceAttrs[k]])
    requires forall j :: i <= j < k ==> !(SourceAttrs[j] in attrs && isUrl(attrs[SourceAttrs[j]]))
    ensures SourceFrom(isUrl, attrs, i) == Some(attrs[SourceAttrs[k]])
    decreases k - i
  {
    if i < k {
      SourceFromFirst(isUrl, attrs, i + 1, k);
    }
  }

  /** With no attribute of the list present and holding a URL, the image offers nothing. */
  lemma {:induction false} SourceFromNone(isUrl: string -> bool, attrs: Attrs, i: nat)
    requires i <= |SourceAttrs|
    requires forall j :: i <= j < |SourceAttrs| ==> !(SourceAttrs[j] in attrs && isUrl(attrs[SourceAttrs[j]]))
    ensures SourceFrom(isUrl, attrs, i) == None
    decreases |SourceAttrs| - i
  {
    if i < |SourceAttrs| {
      SourceFromNone(isUrl, attrs, i + 1);
    }
  }

  /** Attribute `j` of the priority list is present and holds a URL, and none before it is. */
  predicate FirstQualifying(isUrl: string -> bool, attrs: Attrs, j: nat)
  {
    && j < |SourceAttrs| && SourceAttrs[j] in attrs && isUrl(attrs[SourceAttrs[j]])
    && forall i :: 0 <= i < j ==> !(SourceAttrs[i] in attrs && isUrl(attrs[SourceAttrs[i]]))
  }

  /** src wins over data-src, which wins over data-src-retina, which wins over
      data-original. */
  lemma SourcePriority(isUrl: string -> bool, attrs: Attrs, k: nat)
    requires k < |SourceAttrs| && SourceAttrs[k] in attrs && isUrl(attrs[SourceAttrs[k]])
    ensures ImageSource(isUrl, attrs).Some?
    ensures "src" in attrs && isUrl(attrs["src"]) ==> ImageSource(isUrl, attrs) == Some(attrs["src"])
    ensures FirstQualifying(isUrl, attrs, k) ==> ImageSource(isUrl, attrs) == Some(attrs[SourceAttrs[k]])
  {
    if "src" in attrs && isUrl(attrs["src"]) {
      SourceFromFirst(isUrl, attrs, 0, 0);
    }
    var first := FirstAtOrBefore(isUrl, attrs, k);
    SourceFromFirst(isUrl, attrs, 0, first);
  }

  /** Some attribute at or before `k` is the first qualifying one. */
  lemma {:induction false} FirstAtOrBefore(isUrl: string -> bool, attrs: Attrs, k: nat) returns (first: nat)
    requires k < |SourceAttrs| && SourceAttrs[k] in attrs && isUrl(attrs[SourceAttrs[k]])
    ensures first <= k && FirstQualifying(isUrl, attrs, first)
    decreases k
  {
    if exists j :: 0 <= j < k && SourceAttrs[j] in attrs && isUrl(attrs[SourceAttrs[j]]) {
      var j :| 0 <= j < k && SourceAttrs[j] in attrs && isUrl(attrs[SourceAttrs[j]]);
      first := FirstAtOrBefore(isUrl, attrs, j);
    } else {
      first := k;
    }
  }

  /** The header image is the address of the first image offering one; later images are
      not looked at. */
  lemma {:induction false} HeaderFromFirstImage(isUrl: string -> bool, images: seq<Attrs>, i: nat)
    requires i < |images| && ImageSource(isUrl, images[i]).Some?
    requires forall j :: 0 <= j < i ==> ImageSource(isUrl, images[j]).None?
    ensures HeaderOf(isUrl, images) == ImageSource(isUrl, images[i]).value
    decreases i
  {
    if i > 0 {
      assert forall j :: 0 <= j < i - 1 ==> images[1..][j] == images[j + 1];
      HeaderFromFirstImage(isUrl, images[1..], i - 1);
    }
  }

  /** No image offering an address leaves the header image empty. */
  lemma {:induction false} HeaderNone(isUrl: string -> bool, images: seq<Attrs>)
    requires forall j :: 0 <= j < |images| ==> ImageSource(isUrl, images[j]).None?
    ensures HeaderOf(isUrl, images) == ""
    decreases |images|
  {
    if images != [] {
      assert forall j :: 0 <= j < |images| - 1 ==> images[1..][j] == images[j + 1];
      HeaderNone(isUrl, images[1..]);
    }
  }
}

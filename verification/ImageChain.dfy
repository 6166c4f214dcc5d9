/** The address ranges of several images and their oat files (compiler/image_writer.cc CalculateNewObjectOffsets and
    UpdateOatFileLayout, dex2oat/dex2oat.cc WriteOatFiles). */
module ImageChain {

  /** The part of ImageInfo that says where things will be in memory. */
  datatype Info = Info(imageBegin: nat, imageSize: nat, oatOffset: nat, oatFileBegin: nat, oatLoadedSize: nat,
                       oatDataBegin: nat, oatSize: nat)

  /** An oat file as its writers announce it. */
  datatype OatFile = OatFile(loadedSize: nat, dataOffset: nat, dataSize: nat)

  function ImagesEnd(infos: seq<Info>, base: nat, n: nat): nat
    requires n <= |infos|
  {
    if n == 0 then base else ImagesEnd(infos, base, n - 1) + infos[n - 1].imageSize
  }

  function OatEnd(oats: seq<OatFile>, base: nat, n: nat): nat
    requires n <= |oats|
  {
    if n == 0 then base else OatEnd(oats, base, n - 1) + oats[n - 1].loadedSize
  }

  /** Image i follows the images before it. */
  ghost predicate ImageAt(infos: seq<Info>, base: nat, i: nat)
    requires i < |infos|
  {
    infos[i].imageBegin == ImagesEnd(infos, base, i)
  }

  ghost predicate ImagesPlaced(infos: seq<Info>, base: nat) {
    forall i {:trigger ImageAt(infos, base, i)} :: 0 <= i < |infos| ==> ImageAt(infos, base, i)
  }

  /** Oat file i follows the oat files before it, which follow the last image. */
  ghost predicate OatAt(infos: seq<Info>, oats: seq<OatFile>, end: nat, i: nat)
    requires i < |infos| && i < |oats|
  {
    && infos[i].oatFileBegin == OatEnd(oats, end, i) && infos[i].oatLoadedSize == oats[i].loadedSize
    && infos[i].oatDataBegin == infos[i].oatFileBegin + oats[i].dataOffset && infos[i].oatSize == oats[i].dataSize
  }

  ghost predicate OatsPlaced(infos: seq<Info>, oats: seq<OatFile>, end: nat) {
    && |oats| == |infos|
    && forall i {:trigger OatAt(infos, oats, end, i)} :: 0 <= i < |infos| ==> OatAt(infos, oats, end, i)
  }

  lemma {:induction false} SameSizes(a: seq<Info>, b: seq<Info>, base: nat, n: nat)
    requires n <= |a| && n <= |b| && forall i :: 0 <= i < n ==> a[i].imageSize == b[i].imageSize
    ensures ImagesEnd(a, base, n) == ImagesEnd(b, base, n)
  {
    if n == 0 {
    } else {
      SameSizes(a, b, base, n - 1);
    }
  }

  lemma {:induction false} ImagesEndGrows(infos: seq<Info>, base: nat, i: nat, k: nat)
    requires i <= k <= |infos|
    ensures base <= ImagesEnd(infos, base, i) <= ImagesEnd(infos, base, k)
    decreases k
  {
    if i < k { ImagesEndGrows(infos, base, i, k - 1); } else if i > 0 { ImagesEndGrows(infos, base, i - 1, i - 1); }
  }

  lemma {:induction false} OatEndGrows(oats: seq<OatFile>, base: nat, i: nat, k: nat)
    requires i <= k <= |oats|
    ensures base <= OatEnd(oats, base, i) <= OatEnd(oats, base, k)
    decreases k
  {
    if i < k { OatEndGrows(oats, base, i, k - 1); } else if i > 0 { OatEndGrows(oats, base, i - 1, i - 1); }
  }

  class Images {
    const base: nat
    const appImage: bool
    var infos: seq<Info>

    constructor (base: nat, appImage: bool, count: nat)
      ensures this.base == base && this.appImage == appImage && |infos| == count
      ensures forall i :: 0 <= i < count ==> infos[i].oatOffset == 0
    {
      this.base, this.appImage := base, appImage;
      infos := seq(count, _ => Info(0, 0, 0, 0, 0, 0, 0));
    }

    /** The loop of CalculateNewObjectOffsets that places the images one behind the other. */
    method PlaceImages(sizes: seq<nat>)
      requires |sizes| == |infos|
      modifies this
      ensures |infos| == |sizes| && ImagesPlaced(infos, base)
      ensures forall i :: 0 <= i < |infos| ==>
                infos[i] == old(infos)[i].(imageBegin := infos[i].imageBegin, imageSize := sizes[i])
    {
      var imageOffset := 0;
      for i := 0 to |infos|
        invariant |infos| == |sizes| && base + imageOffset == ImagesEnd(infos, base, i)
        invariant forall k {:trigger ImageAt(infos, base, k)} :: 0 <= k < i ==> ImageAt(infos, base, k)
        invariant forall k :: 0 <= k < i ==>
                    infos[k] == old(infos)[k].(imageBegin := infos[k].imageBegin, imageSize := sizes[k])
        invariant forall k :: i <= k < |infos| ==> infos[k] == old(infos)[k]
      {
        ghost var before := infos;
        infos := infos[i := infos[i].(imageBegin := base + imageOffset, imageSize := sizes[i])];
        SameSizes(before, infos, base, i);
        forall k {:trigger ImageAt(infos, base, k)} | 0 <= k < i + 1 ensures ImageAt(infos, base, k) {
          if k < i { assert ImageAt(before, base, k); }
          SameSizes(before, infos, base, k);
        }
        imageOffset := imageOffset + sizes[i];
      }
    }

    /** UpdateOatFileLayout. */
    method UpdateOatFileLayout(i: nat, oat: OatFile)
      requires i < |infos| && (appImage ==> |infos| == 1)
      requires ImagesPlaced(infos, base)
      modifies this
      ensures |infos| == |old(infos)| && ImagesPlaced(infos, base)
      ensures ImagesEnd(infos, base, |infos|) == old(ImagesEnd(infos, base, |infos|))
      ensures var begin := old(ImagesEnd(infos, base, |infos|)) + old(infos)[i].oatOffset;
              infos[i] == old(infos)[i].(oatFileBegin := begin, oatLoadedSize := oat.loadedSize,
                                         oatDataBegin := begin + oat.dataOffset, oatSize := oat.dataSize)
      ensures i + 1 < |infos| ==>
                infos[i + 1] == old(infos)[i + 1].(oatOffset := old(infos)[i].oatOffset + oat.loadedSize)
      ensures forall k :: 0 <= k < |infos| && k != i && k != i + 1 ==> infos[k] == old(infos)[k]
    {
      var last := infos[|infos| - 1];
      assert ImageAt(infos, base, |infos| - 1);
      var imagesEnd := last.imageBegin + last.imageSize;
      var begin := imagesEnd + infos[i].oatOffset;
      var info := infos[i].(oatFileBegin := begin, oatLoadedSize := oat.loadedSize,
                            oatDataBegin := begin + oat.dataOffset, oatSize := oat.dataSize);
      infos := infos[i := info];
      if !appImage && i + 1 != |infos| {
        infos := infos[i + 1 := infos[i + 1].(oatOffset := info.oatOffset + oat.loadedSize)];
      }
      SameSizes(old(infos), infos, base, |infos|);
      forall k {:trigger ImageAt(infos, base, k)} | 0 <= k < |infos| ensures ImageAt(infos, base, k) {
        assert ImageAt(old(infos), base, k);
        SameSizes(old(infos), infos, base, k);
      }
    }

    /** The first loop of WriteOatFiles, over all oat files in order. */
    method UpdateAll(oats: seq<OatFile>)
      requires |oats| == |infos| && (appImage ==> |infos| == 1) && ImagesPlaced(infos, base)
      requires |infos| > 0 ==> infos[0].oatOffset == 0
      modifies this
      ensures ImagesPlaced(infos, base) && OatsPlaced(infos, oats, ImagesEnd(infos, base, |infos|))
    {
      ghost var end := ImagesEnd(infos, base, |infos|);
      for i := 0 to |infos|
        invariant |infos| == |oats| && ImagesPlaced(infos, base) && ImagesEnd(infos, base, |infos|) == end
        invariant i < |infos| ==> end + infos[i].oatOffset == OatEnd(oats, end, i)
        invariant forall k {:trigger OatAt(infos, oats, end, k)} :: 0 <= k < i ==> OatAt(infos, oats, end, k)
      {
        ghost var before := infos;
        UpdateOatFileLayout(i, oats[i]);
        forall k {:trigger OatAt(infos, oats, end, k)} | 0 <= k < i + 1 ensures OatAt(infos, oats, end, k) {
          if k < i { assert OatAt(before, oats, end, k); }
        }
      }
    }
  }

  /** No image or oat file overlaps another: images in order, then oat files in order, without gaps. */
  lemma RangesDisjoint(infos: seq<Info>, base: nat, oats: seq<OatFile>, i: nat, k: nat)
    requires i < k < |infos| && ImagesPlaced(infos, base) && OatsPlaced(infos, oats, ImagesEnd(infos, base, |infos|))
    ensures infos[i].imageBegin + infos[i].imageSize <= infos[k].imageBegin
    ensures infos[i].oatFileBegin + infos[i].oatLoadedSize <= infos[k].oatFileBegin
    ensures infos[k].imageBegin + infos[k].imageSize <= infos[i].oatFileBegin
    ensures k == i + 1 ==>
              && infos[i].imageBegin + infos[i].imageSize == infos[k].imageBegin
              && infos[i].oatFileBegin + infos[i].oatLoadedSize == infos[k].oatFileBegin
  {
    var end := ImagesEnd(infos, base, |infos|);
    assert ImageAt(infos, base, i) && ImageAt(infos, base, k);
    assert OatAt(infos, oats, end, i) && OatAt(infos, oats, end, k);
    ImagesEndGrows(infos, base, i + 1, k);
    ImagesEndGrows(infos, base, k + 1, |infos|);
    OatEndGrows(oats, end, i + 1, k);
    OatEndGrows(oats, end, 0, i);
  }

  /** An image does not overlap its own oat file, and the first oat file follows the last image. */
  lemma OatBehindImages(infos: seq<Info>, base: nat, oats: seq<OatFile>, i: nat, k: nat)
    requires i < |infos| && k < |infos| && ImagesPlaced(infos, base)
    requires OatsPlaced(infos, oats, ImagesEnd(infos, base, |infos|))
    ensures infos[i].imageBegin + infos[i].imageSize <= infos[k].oatFileBegin
    ensures infos[0].imageBegin == base
    ensures infos[|infos| - 1].imageBegin + infos[|infos| - 1].imageSize == infos[0].oatFileBegin
    ensures oats[k].dataOffset + oats[k].dataSize <= oats[k].loadedSize ==>
              infos[k].oatDataBegin + infos[k].oatSize <= infos[k].oatFileBegin + infos[k].oatLoadedSize
  {
    var end := ImagesEnd(infos, base, |infos|);
    assert ImageAt(infos, base, i) && ImageAt(infos, base, 0) && ImageAt(infos, base, |infos| - 1);
    assert OatAt(infos, oats, end, k) && OatAt(infos, oats, end, 0);
    ImagesEndGrows(infos, base, i + 1, |infos|);
    OatEndGrows(oats, end, 0, k);
  }
}

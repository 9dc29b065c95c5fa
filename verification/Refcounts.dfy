/** Image reference counts, and the manager's operations one after another. */
module Refcounts {
  import opened Prelude

  /** Tracked VM ids with the image each was made from, if known. */
  type Images = map<string, Option<string>>

  function Count(counts: map<string, nat>, image: string): nat {
    if image in counts then counts[image] else 0
  }

  function Tracked(images: Images, image: string): set<string> {
    set id | id in images && images[id] == Some(image)
  }

  /** `*refcounts.entry(image).or_insert(0) += 1`. */
  function Incremented(counts: map<string, nat>, image: string): map<string, nat> {
    counts[image := Count(counts, image) + 1]
  }

  /** The saturating decrement, which drops an entry that reaches zero; an absent entry stays absent. */
  function Decremented(counts: map<string, nat>, image: string): map<string, nat> {
    if image !in counts then counts
    else if counts[image] <= 1 then counts - {image}
    else counts[image := counts[image] - 1]
  }

  /** The image an id is tracked with. */
  function ImageOf(images: Images, id: string): Option<string> {
    if id in images then images[id] else None
  }

  lemma TrackedInsert(images: Images, id: string, image: Option<string>, img: string)
    ensures |Tracked(images[id := image], img)| ==
            |Tracked(images, img)| + (if image == Some(img) then 1 else 0)
            - (if ImageOf(images, id) == Some(img) then 1 else 0)
  {
    var rest := Tracked(images, img) - {id};
    assert Tracked(images, img) == if ImageOf(images, id) == Some(img) then rest + {id} else rest;
    assert Tracked(images[id := image], img) == if image == Some(img) then rest + {id} else rest;
  }

  lemma TrackedRemove(images: Images, id: string, img: string)
    ensures |Tracked(images - {id}, img)| ==
            |Tracked(images, img)| - (if ImageOf(images, id) == Some(img) then 1 else 0)
  {
    assert Tracked(images - {id}, img) == Tracked(images, img) - {id};
  }

  class VmManager {
    var vms: Images
    var imageRefcounts: map<string, nat>
    const imageManagement: bool

    /** No image is counted more often than VMs use it. */
    ghost predicate Valid()
      reads this
    {
      forall img :: Count(imageRefcounts, img) <= |Tracked(vms, img)|
    }

    /** Every image is counted exactly as often as VMs use it. */
    ghost predicate Exact()
      reads this
    {
      forall img :: Count(imageRefcounts, img) == |Tracked(vms, img)|
    }

    constructor (imageManagement: bool)
      ensures this.imageManagement == imageManagement && vms == map[] && imageRefcounts == map[]
      ensures Valid() && Exact()
    {
      this.imageManagement, vms, imageRefcounts := imageManagement, map[], map[];
      new;
      assert forall img :: Tracked(vms, img) == {};
    }

    method ImageRefcount(image: string) returns (n: nat)
      ensures n == Count(imageRefcounts, image)
      ensures Exact() ==> n == |Tracked(vms, image)|
    {
      n := if image in imageRefcounts then imageRefcounts[image] else 0;
    }

    /** `create_vm`; `booted` says whether everything up to the insertion succeeds. */
    method CreateVm(id: string, image: string, booted: bool) returns (ok: bool)
      requires Valid()
      modifies this
      ensures ok <==> id !in old(vms) && booted
      ensures vms == if ok then old(vms)[id := Some(image)] else old(vms)
      ensures imageRefcounts == if ok && imageManagement then Incremented(old(imageRefcounts), image)
                                else old(imageRefcounts)
      ensures Valid() && (old(Exact()) && (imageManagement || !ok) ==> Exact())
    {
      if id in vms {
        return false;
      }
      if !booted {
        return false;
      }
      forall img {
        TrackedInsert(vms, id, Some(image), img);
      }
      vms := vms[id := Some(image)];
      if imageManagement {
        imageRefcounts := Incremented(imageRefcounts, image);
      }
      ok := true;
    }

    /** `delete_vm_with_options`; `removed` says whether the runtime's deletion succeeds. */
    method DeleteVm(id: string, removed: bool) returns (ok: bool)
      requires Valid()
      modifies this
      ensures ok <==> id in old(vms) && removed
      ensures vms == if ok then old(vms) - {id} else old(vms)
      ensures imageRefcounts == if ok && old(vms)[id].Some? then Decremented(old(imageRefcounts), old(vms)[id].value)
                                else old(imageRefcounts)
      ensures Valid() && (old(Exact()) ==> Exact())
    {
      if id !in vms {
        return false;
      }
      if !removed {
        return false;
      }
      var image := vms[id];
      forall img {
        TrackedRemove(vms, id, img);
      }
      assert image.Some? ==> id in Tracked(vms, image.value);
      vms := vms - {id};
      if image.Some? {
        imageRefcounts := Decremented(imageRefcounts, image.value);
      }
      ok := true;
    }

    /**
     A VM found by a reconnect pass: tracked, not counted. The pass runs again on
     a live manager, so the id may be tracked already, under another image.
     */
    method Recover(id: string, image: Option<string>)
      requires Valid()
      modifies this
      ensures vms == old(vms)[id := image] && imageRefcounts == old(imageRefcounts)
      ensures var before := ImageOf(old(vms), id);
              Valid() <==>
                || before == image || before.None?
                || Count(old(imageRefcounts), before.value) < |Tracked(old(vms), before.value)|
      ensures old(Exact()) ==> (Exact() <==> ImageOf(old(vms), id) == image)
    {
      forall img {
        TrackedInsert(vms, id, image, img);
      }
      vms := vms[id := image];
    }
  }

  /** A VM created here and found again under another image leaves its first image counted and unused. */
  method RecoverOvercounts(id: string, image: string, found: Option<string>) returns (manager: VmManager)
    requires found != Some(image)
    ensures fresh(manager) && !manager.Valid()
    ensures Count(manager.imageRefcounts, image) == 1 && Tracked(manager.vms, image) == {}
  {
    manager := new VmManager(true);
    var created := manager.CreateVm(id, image, true);
    TrackedInsert(map[], id, Some(image), image);
    assert Tracked(map[], image) == {};
    manager.Recover(id, found);
  }
}

// Physical copies (server/scan.go, server/results.go): hard links to one file
// are one copy, and what a group can free is measured on disk.
module Copies {
  // Names sharing device, inode and link count above one are one copy; the
  // zero link is "unknown" and a copy of its own.
  datatype Link = Link(dev: nat, ino: nat, n: nat)

  // phys is what the file occupies on disk.
  datatype RawFile = RawFile(path: string, phys: nat, link: Link)

  predicate Shared(l: Link) { l.n > 1 && l.ino != 0 }

  // copyPhys: one figure for each distinct copy, in listing order.
  function CopyPhys(files: seq<RawFile>): seq<nat> {
    CopyPhysFrom(files, {})
  }

  function CopyPhysFrom(files: seq<RawFile>, seen: set<Link>): seq<nat> {
    if files == [] then []
    else
      var l := files[0].link;
      if Shared(l) && l in seen then CopyPhysFrom(files[1..], seen)
      else [files[0].phys] + CopyPhysFrom(files[1..], if Shared(l) then seen + {l} else seen)
  }

  function Sum(s: seq<nat>): nat {
    if s == [] then 0 else s[0] + Sum(s[1..])
  }

  function Largest(s: seq<nat>): (m: nat)
    ensures m <= Sum(s)
  {
    if s == [] then 0
    else
      var m := Largest(s[1..]);
      if s[0] > m then s[0] else m
  }

  // reclaimPhys: everything but the largest copy.
  function ReclaimPhys(phys: seq<nat>): nat {
    Sum(phys) - Largest(phys)
  }
}

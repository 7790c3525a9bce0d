/**
 Validation of user ranges before a copy in either direction (ke/user_mode_syscall.c).
 */
module UserCopy {
  import opened Arithmetic
  import opened Paging
  import opened PageTree
  import opened Status
  import opened UserStaging
  import M = Machine

  // The part of KE_USER_MODE_LAYOUT that the checks use.
  datatype Layout = Layout(base: nat, end: nat, ownerRoot: nat)

  predicate LayoutSized(layout: Layout) {
    layout.base < WORD_LIMIT && layout.end < WORD_LIMIT
  }

  // KiValidateUserModeRange; addresses are 64-bit and the end may wrap around.
  function ValidateRange(layout: Layout, userBase: nat, length: nat): (Status, nat) {
    if layout.end <= layout.base then (InvalidState, 0)
    else if length == 0 then (Success, userBase)
    else if userBase < layout.base then (IllegalArgument, 0)
    else if userBase >= layout.end then (IllegalArgument, 0)
    else
      var end := (userBase + length) % WORD_LIMIT;
      if end < userBase then (IllegalArgument, 0)
      else if end > layout.end then (IllegalArgument, 0)
      else (Success, end)
  }

  // Wrap-around never lets a range out of the window through.
  lemma RangeExact(layout: Layout, userBase: nat, length: nat)
    requires LayoutSized(layout) && 0 < length < WORD_LIMIT && userBase < WORD_LIMIT
    ensures var (status, end) := ValidateRange(layout, userBase, length);
            && (status == Success <==> layout.base <= userBase && userBase + length <= layout.end)
            && (status == Success ==> end == userBase + length)
  {}

  // User mode may read (and write) this page.
  ghost predicate UserPage(s: Space, root: nat, vpn: nat, writable: bool) {
    var w := Translate(s, root, vpn);
    w.Leaf? && UserPath(s.pages, root, 4, vpn) && (writable ==> w.pte.writable)
  }

  // Every byte of the range lies in such a page.
  ghost predicate UserRange(s: Space, root: nat, from: nat, to: nat, writable: bool) {
    forall a: nat {:trigger Vpn(a)} :: from <= a < to ==> UserPage(s, root, Vpn(a), writable)
  }

  // x rounded down to a page.
  function PageBase(x: nat): (base: nat)
    ensures base % PAGE_4KB == 0 && base <= x < base + PAGE_4KB
  {
    x / PAGE_4KB * PAGE_4KB
  }

  lemma SamePage(a: nat, base: nat)
    requires base % PAGE_4KB == 0 && base <= a < base + PAGE_4KB
    ensures Vpn(a) == Vpn(base)
  {}

  lemma NextPage(base: nat, last: nat)
    requires base % PAGE_4KB == 0 && last % PAGE_4KB == 0 && base < last
    ensures base + PAGE_4KB <= last
  {}

  // The bytes of one more page.
  lemma PageChecked(s: Space, root: nat, from: nat, base: nat, writable: bool)
    requires base % PAGE_4KB == 0 && UserRange(s, root, from, base, writable) && UserPage(s, root, Vpn(base), writable)
    ensures UserRange(s, root, from, base + PAGE_4KB, writable)
  {
    forall a: nat | from <= a < base + PAGE_4KB ensures UserPage(s, root, Vpn(a), writable) {
      if a >= base { SamePage(a, base); }
    }
  }

  lemma PageRefused(s: Space, root: nat, from: nat, to: nat, base: nat, writable: bool)
    requires base % PAGE_4KB == 0 && from < base + PAGE_4KB && base < to && from < to
    requires !UserPage(s, root, Vpn(base), writable)
    ensures !UserRange(s, root, from, to, writable)
  {
    var sample := if base < from then from else base;
    SamePage(sample, base);
  }

  // KiValidateUserModePages: the page loop looks at every page the range touches.
  method ValidatePages(m: M.Machine, space: M.SpaceHandle, userBase: nat, end: nat, requireWritable: bool)
    returns (status: Status)
    requires m.Valid() && (space.initialized ==> IsRoot(m.View(), space.root)) && userBase <= end
    ensures !space.initialized ==> status == InvalidState
    ensures space.initialized ==>
              (status == Success <==> UserRange(m.View(), space.root, userBase, end, requireWritable))
  {
    if !space.initialized {
      return InvalidState;
    }
    if userBase == end {
      return Success;
    }
    ghost var s := m.View();
    var pageBase := PageBase(userBase);
    var lastPageBase := PageBase(end - 1);
    while true
      invariant pageBase % PAGE_4KB == 0 && pageBase <= lastPageBase && userBase < pageBase + PAGE_4KB
      invariant UserRange(s, space.root, userBase, pageBase, requireWritable)
      decreases lastPageBase - pageBase
    {
      var ok := CheckPage(m, space, pageBase, requireWritable);
      if !ok {
        PageRefused(s, space.root, userBase, end, pageBase, requireWritable);
        return IllegalArgument;
      }
      PageChecked(s, space.root, userBase, pageBase, requireWritable);
      if pageBase == lastPageBase {
        return Success;
      }
      NextPage(pageBase, lastPageBase);
      pageBase := pageBase + PAGE_4KB;
    }
  }

  // One round of the loop: present, user accessible and, if asked, writable.
  method CheckPage(m: M.Machine, space: M.SpaceHandle, pageBase: nat, requireWritable: bool) returns (ok: bool)
    requires m.Valid() && space.initialized && IsRoot(m.View(), space.root) && pageBase % PAGE_4KB == 0
    ensures ok == UserPage(m.View(), space.root, Vpn(pageBase), requireWritable)
  {
    var status, mapping := m.QueryPage(space, pageBase);
    if !mapping.present || !mapping.userAccessible {
      return false;
    }
    return !requireWritable || mapping.attributes.writable;
  }

  // What the checks before a non-empty copy come to.
  ghost predicate CopyAllowed(s: Space, active: nat, layout: Layout, userBase: nat, length: nat, copyOut: bool) {
    && layout.base <= userBase && userBase + length <= layout.end
    && active == layout.ownerRoot
    && UserRange(s, layout.ownerRoot, userBase, userBase + length, copyOut)
  }

  // The checks KeUserModeCopyInBytes and KeUserModeCopyOutBytes make before they touch user memory.
  method ValidateUserCopy(m: M.Machine, layout: Layout, userBase: nat, length: nat, copyOut: bool)
    returns (status: Status)
    requires m.Valid() && IsRoot(m.View(), layout.ownerRoot) && LayoutSized(layout)
    requires userBase < WORD_LIMIT && length < WORD_LIMIT
    ensures length == 0 ==> status == Success
    ensures length > 0 ==> (status == Success <==> CopyAllowed(m.View(), m.cr3, layout, userBase, length, copyOut))
  {
    if length == 0 {
      return Success;
    }
    RangeExact(layout, userBase, length);
    var (rangeStatus, end) := ValidateRange(layout, userBase, length);
    if rangeStatus != Success {
      return rangeStatus;
    }
    if m.cr3 != layout.ownerRoot {
      return InvalidState;
    }
    status := ValidatePages(m, M.SpaceHandle(layout.ownerRoot, true), userBase, end, copyOut);
  }

  // ---------------------------------------------------------------- on a staged process

  // KeUserModeQueryCurrentThreadLayout of a staged process: from the code page to the top of the stack.
  function StagedLayout(root: nat): Layout {
    Layout(CODE_BASE, STACK_TOP, root)
  }

  lemma WindowPage(a: nat)
    requires CODE_BASE <= a < STACK_TOP
    ensures Vpn(a) == a / PAGE_4KB && 0x8_0000 <= Vpn(a) <= 0x8_0003
  {}

  lemma WindowFlags(f: nat)
    ensures LeafPte(f, CODE_FLAGS).user && !LeafPte(f, CODE_FLAGS).writable
    ensures LeafPte(f, CONST_FLAGS).user && !LeafPte(f, CONST_FLAGS).writable
    ensures LeafPte(f, STACK_FLAGS).user && LeafPte(f, STACK_FLAGS).writable
  {}

  // The leaf of each page of the window says who may use it: code, const and stack to read, only the stack to
  // write, and nobody the guard page.
  lemma StagedLeaf(s: Space, root: nat, hasConst: bool, vpn: nat)
    requires Staged4(s, root, hasConst) && 0x8_0000 <= vpn <= 0x8_0003
    ensures var w := Translate(s, root, vpn);
            && (w.Leaf? <==> vpn == 0x8_0000 || (vpn == 0x8_0001 && hasConst) || vpn == 0x8_0003)
            && (w.Leaf? ==> w.pte.user && (w.pte.writable <==> vpn == 0x8_0003))
  {
    Window();
    var w := Translate(s, root, vpn);
    if vpn == 0x8_0000 {
      var f :| w == Leaf(1, LeafPte(f, CODE_FLAGS));
      WindowFlags(f);
    } else if vpn == 0x8_0001 && hasConst {
      var f :| w == Leaf(1, LeafPte(f, CONST_FLAGS));
      WindowFlags(f);
    } else if vpn == 0x8_0003 {
      var f :| w == Leaf(1, LeafPte(f, STACK_FLAGS));
      WindowFlags(f);
    }
  }

  // No accepted copy-out leaves the stack page and no accepted range, in either direction, touches the guard page,
  // whatever has been done to PTE_USER above the leaves.
  lemma StagedCopiesSafe(s: Space, root: nat, hasConst: bool, active: nat, userBase: nat, length: nat, copyOut: bool)
    requires Staged4(s, root, hasConst) && length > 0
    requires CopyAllowed(s, active, StagedLayout(root), userBase, length, copyOut)
    ensures copyOut ==> STACK_BASE <= userBase && userBase + length <= STACK_TOP
    ensures userBase + length <= GUARD_BASE || GUARD_BASE + PAGE_4KB <= userBase
  {
    WindowPage(userBase);
    assert UserPage(s, root, Vpn(userBase), copyOut);
    StagedLeaf(s, root, hasConst, Vpn(userBase));
    if userBase < GUARD_BASE + PAGE_4KB && GUARD_BASE < userBase + length {
      GuardRefused(s, root, hasConst, userBase, length, copyOut);
    }
  }

  lemma GuardRefused(s: Space, root: nat, hasConst: bool, userBase: nat, length: nat, copyOut: bool)
    requires Staged4(s, root, hasConst) && CODE_BASE <= userBase && userBase + length <= STACK_TOP
    requires userBase < GUARD_BASE + PAGE_4KB && GUARD_BASE < userBase + length && length > 0
    ensures !UserRange(s, root, userBase, userBase + length, copyOut)
  {
    var a := if userBase < GUARD_BASE then GUARD_BASE else userBase;
    WindowPage(a);
    StagedLeaf(s, root, hasConst, Vpn(a));
    assert !UserPage(s, root, Vpn(a), copyOut);
  }

  // On what ExRuntimeCreateProcess returns, a non-empty copy-out is accepted exactly when it lies in the stack
  // page and the process's root is active.
  lemma StagedCopyOut(s: Space, root: nat, hasConst: bool, active: nat, userBase: nat, length: nat)
    requires Closed(s, root) && root in s.procs && Staged4(s, root, hasConst) && length > 0
    ensures CopyAllowed(s, active, StagedLayout(root), userBase, length, true) <==>
              STACK_BASE <= userBase && userBase + length <= STACK_TOP && active == root
  {
    if STACK_BASE <= userBase && userBase + length <= STACK_TOP {
      forall a: nat | userBase <= a < userBase + length ensures UserPage(s, root, Vpn(a), true) {
        WindowPage(a);
        StagedLeaf(s, root, hasConst, Vpn(a));
        StagedReachable(s, root, hasConst, Vpn(a));
      }
    }
    if CopyAllowed(s, active, StagedLayout(root), userBase, length, true) {
      StagedCopiesSafe(s, root, hasConst, active, userBase, length, true);
    }
  }

  lemma StagedReachable(s: Space, root: nat, hasConst: bool, vpn: nat)
    requires Closed(s, root) && root in s.procs && Staged4(s, root, hasConst) && 0x8_0000 <= vpn <= 0x8_0003
    ensures UserPath(s.pages, root, 4, vpn) <==> Translate(s, root, vpn).Leaf?
  {
    Window();
    assert RootOk(s, root) && Index(vpn, 4) == 0;
    LeafBitDecides(s, {root}, root, vpn);
    StagedLeaf(s, root, hasConst, vpn);
  }

  // Every page of the window that is mapped at all may be read.
  lemma StagedCopyIn(s: Space, root: nat, hasConst: bool, active: nat, userBase: nat, length: nat)
    requires Closed(s, root) && root in s.procs && Staged4(s, root, hasConst) && length > 0
    ensures CopyAllowed(s, active, StagedLayout(root), userBase, length, false) <==>
              && active == root
              && (|| (STACK_BASE <= userBase && userBase + length <= STACK_TOP)
                  || (CODE_BASE <= userBase && userBase + length <= if hasConst then GUARD_BASE else CONST_BASE))
  {
    var to := userBase + length;
    if CODE_BASE <= userBase && to <= STACK_TOP {
      forall a: nat | userBase <= a < to
        ensures UserPage(s, root, Vpn(a), false) <==>
                  a < CONST_BASE || (hasConst && a < GUARD_BASE) || STACK_BASE <= a
      {
        WindowPage(a);
        StagedLeaf(s, root, hasConst, Vpn(a));
        StagedReachable(s, root, hasConst, Vpn(a));
      }
      ReadEnds(s, root, hasConst, userBase, to);
    }
  }

  // A range of readable bytes cannot run from one readable part into the other.
  lemma ReadEnds(s: Space, root: nat, hasConst: bool, from: nat, to: nat)
    requires CODE_BASE <= from < to <= STACK_TOP
    requires forall a: nat {:trigger Vpn(a)} :: from <= a < to ==>
               (UserPage(s, root, Vpn(a), false) <==> a < CONST_BASE || (hasConst && a < GUARD_BASE) || STACK_BASE <= a)
    ensures UserRange(s, root, from, to, false) <==>
              STACK_BASE <= from || to <= if hasConst then GUARD_BASE else CONST_BASE
  {
    var gap := if hasConst then GUARD_BASE else CONST_BASE;
    if UserRange(s, root, from, to, false) {
      assert UserPage(s, root, Vpn(from), false);
    }
    if from < gap < to { assert !UserPage(s, root, Vpn(gap), false); }
  }

  // The same of the code: create a process, make its root active, and check a copy-out.
  method CopyOutOfNewProcess(m: M.Machine, params: Params, world: Outside, userBase: nat, length: nat)
    returns (created: Status, copied: Status)
    requires m.Valid() && 0 !in m.free && m.cr3 !in m.free && m.kernelRoot != 0
    requires |world.populate| == 3 && |world.inserts| == 3
    requires userBase < WORD_LIMIT && 0 < length < WORD_LIMIT
    modifies m
    ensures created == Success <==> CanCreate(params, world, |old(m.free)|)
    ensures created == Success ==> (copied == Success <==> STACK_BASE <= userBase && userBase + length <= STACK_TOP)
    ensures created != Success ==> m.View() == old(m.View())
  {
    var space, staging;
    created, space, staging := CreateProcess(m, params, world);
    copied := InvalidState;
    if created == Success {
      copied := SwitchAndCheck(m, space.root, userBase, length, params.constLength != 0);
    }
  }

  method SwitchAndCheck(m: M.Machine, root: nat, userBase: nat, length: nat, ghost hasConst: bool)
    returns (copied: Status)
    requires m.Valid() && root in m.procs && root != 0 && Closed(m.View(), root) && Staged4(m.View(), root, hasConst)
    requires userBase < WORD_LIMIT && 0 < length < WORD_LIMIT
    modifies m`cr3
    ensures copied == Success <==> STACK_BASE <= userBase && userBase + length <= STACK_TOP
  {
    var switched := m.SwitchAddressSpace(root);
    copied := ValidateUserCopy(m, StagedLayout(root), userBase, length, true);
    StagedCopyOut(m.View(), root, hasConst, m.cr3, userBase, length);
  }
}

// User stacks and the checks made on a saved stack pointer before a process is entered.

module UserStacks {
  import opened Numbers

  const STACK_TOP_PAGE: nat := 0x7_FFFF_FFFF
  const STACK_PAGES: nat := 8
  const USER_STACK_TOP: nat := STACK_TOP_PAGE * 4096
  const USER_VA_MAX: nat := 0x8000_0000_0000
  const MAX_USER_COPY: nat := 4096

  /** The user and writable bits of the entry that maps a page. */
  datatype Access = Access(user: bool, writable: bool)

  /** What a process's page tables map, by page number. */
  type Pages = map<nat, Access>

  /** The page of the initial stack pointer of process pid: windows of nine pages going down. */
  function StackTop(pid: nat): nat {
    Sub(STACK_TOP_PAGE, Sub(pid, 1) * (STACK_PAGES + 1))
  }

  const READ_WRITE := Access(true, true)

  /** Map n pages downwards from `page` as user memory. */
  function MapDown(pages: Pages, page: nat, n: nat): (r: Pages)
    ensures forall p :: p in pages && pages[p] == READ_WRITE ==> p in r && r[p] == READ_WRITE
    decreases n
  {
    if n == 0 then pages else MapDown(pages[page := READ_WRITE], Sub(page, 1), n - 1)
  }

  /** The pages of a process once its stack is mapped. */
  function WithStack(pages: Pages, pid: nat): Pages {
    MapDown(pages, StackTop(pid), STACK_PAGES)
  }

  lemma {:induction false} MapDownIs(pages: Pages, page: nat, n: nat, p: nat)
    ensures p in MapDown(pages, page, n) <==> p in pages || (n > 0 && Sub(page, n - 1) <= p <= page)
    ensures p in MapDown(pages, page, n) ==>
      MapDown(pages, page, n)[p] == if n > 0 && Sub(page, n - 1) <= p <= page then READ_WRITE else pages[p]
    decreases n
  {
    if n > 0 {
      MapDownIs(pages[page := READ_WRITE], Sub(page, 1), n - 1, p);
    }
  }

  /** The stack of process pid: eight pages of writable user memory below 0x7FFF_FFFF_F000 for the
      first pid, and nine pages further down for each pid after it; other pages stay. */
  lemma StackSays(pages: Pages, pid: nat, p: nat)
    requires 1 <= pid && 9 * pid + 7 <= 0x7_FFFF_FFFF
    ensures var top := 0x7_FFFF_FFFF - 9 * (pid - 1);
      && StackTop(pid) == top
      && (p in WithStack(pages, pid) <==> p in pages || top - 7 <= p <= top)
      && (p in WithStack(pages, pid) ==>
            WithStack(pages, pid)[p] == if top - 7 <= p <= top then Access(true, true) else pages[p])
  {
    hide MapDown;
    MapDownIs(pages, StackTop(pid), 8, p);
  }

  /** A process may be entered with stack pointer rsp: it is not above the stack area, aligned,
      and the word below it can be written by the user. */
  predicate Enterable(pages: Pages, rsp: nat) {
    var page := Sub(rsp, 8) / 4096;
    && rsp <= USER_STACK_TOP && rsp % 16 == 0
    && page in pages && pages[page].user && pages[page].writable
  }

  /** What the checks come to. */
  lemma EnterableIff(pages: Pages, rsp: nat)
    ensures var page := if rsp < 8 then 0 else (rsp - 8) / 4096;
      Enterable(pages, rsp) <==>
        rsp <= 0x7FFF_FFFF_F000 && rsp % 16 == 0 && page in pages && pages[page].user && pages[page].writable
  {
  }

  /** A process can always be entered with the stack pointer it is created with. */
  lemma NewStackEnterable(pages: Pages, pid: nat)
    ensures Enterable(WithStack(pages, pid), StackTop(pid) * 4096)
  {
    var top := StackTop(pid);
    assert Sub(top * 4096, 8) / 4096 == Sub(top, 1);
    assert WithStack(pages, pid) == MapDown(pages[top := READ_WRITE], Sub(top, 1), 7);
    assert WithStack(pages, pid) == MapDown(pages[top := READ_WRITE][Sub(top, 1) := READ_WRITE], Sub(Sub(top, 1), 1), 6);
  }

  /** Every page of [ptr, ptr + len) is mapped user memory, as system calls check their buffers. */
  predicate UserRange(pages: Pages, ptr: nat, len: nat) {
    len == 0 || (ptr + len <= USER_VA_MAX && len <= MAX_USER_COPY
                 && forall p :: ptr / 4096 <= p <= (ptr + len - 1) / 4096 ==> p in pages)
  }

  /** For a buffer of four bytes. */
  lemma WordRange(pages: Pages, ptr: nat)
    ensures UserRange(pages, ptr, 4) <==>
      ptr + 4 <= 0x8000_0000_0000 && ptr / 4096 in pages && (ptr + 3) / 4096 in pages
  {
    assert (ptr + 3) / 4096 <= ptr / 4096 + 1;
  }
}

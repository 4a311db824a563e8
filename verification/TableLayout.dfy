/** Where an entry lives. The user side strides through one allocation by table; the kernel side
    maps one page per table of that same allocation. Addresses are user addresses. */
module TableLayout {

  const ENTRY_SIZE: nat := 64

  /** `alloc + i * MAX_TABLE_ENTRY`, then entry `j`. */
  function UserAddress(base: nat, entries: nat, i: nat, j: nat): nat {
    base + (i * entries + j) * ENTRY_SIZE
  }

  /** The page pinned for table `i`, then entry `j`. */
  function KernelAddress(base: nat, page: nat, i: nat, j: nat): nat {
    base + i * page + j * ENTRY_SIZE
  }

  /** Both sides agree on every entry exactly when a table fills a page or there is one table. */
  lemma {:induction false} ViewsAgreeIff(base: nat, page: nat, tables: nat, entries: nat)
    requires tables >= 1 && entries >= 1
    ensures tables == 1 || entries * ENTRY_SIZE == page <==>
      forall i: nat, j: nat :: i < tables && j < entries ==>
        UserAddress(base, entries, i, j) == KernelAddress(base, page, i, j)
  {
    forall i: nat, j: nat | i < tables && j < entries
      ensures UserAddress(base, entries, i, j) == base + i * (entries * ENTRY_SIZE) + j * ENTRY_SIZE
    {
      assert (i * entries + j) * ENTRY_SIZE == i * (entries * ENTRY_SIZE) + j * ENTRY_SIZE;
    }
    if tables > 1 && entries * ENTRY_SIZE != page {
      assert UserAddress(base, entries, 1, 0) != KernelAddress(base, page, 1, 0);
    }
  }

  /** The entries of table `i` follow one another from the start of its page, and stay in it when a
      table fits its page. */
  lemma {:induction false} EntriesAreInTheirPage(base: nat, page: nat, entries: nat, i: nat, j: nat)
    requires entries * ENTRY_SIZE <= page && j < entries
    ensures KernelAddress(base, page, i, 0) == base + i * page
    ensures KernelAddress(base, page, i, j + 1) == KernelAddress(base, page, i, j) + ENTRY_SIZE
    ensures KernelAddress(base, page, i, j) + ENTRY_SIZE <= KernelAddress(base, page, i + 1, 0)
  {
    assert (i + 1) * page == i * page + page;
    assert (j + 1) * ENTRY_SIZE <= entries * ENTRY_SIZE;
  }

  /** Entries of the kernel view never overlap when a table fits its page. */
  lemma {:induction false} EntriesDoNotOverlap(
    base: nat, page: nat, tables: nat, entries: nat, i: nat, j: nat, i': nat, j': nat)
    requires entries * ENTRY_SIZE <= page
    requires i < tables && i' < tables && j < entries && j' < entries && (i, j) != (i', j')
    ensures var a, b := KernelAddress(base, page, i, j), KernelAddress(base, page, i', j');
      a + ENTRY_SIZE <= b || b + ENTRY_SIZE <= a
  {
    if i < i' {
      assert i' * page >= (i + 1) * page == i * page + page;
    } else if i' < i {
      assert i * page >= (i' + 1) * page == i' * page + page;
    }
  }
}

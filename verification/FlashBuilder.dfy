/** The host tool that writes the image: `FileSystem::add_file` and `add_directory`. */
module FlashBuilder {
  import opened Wrappers
  import opened FlashImage

  const FLASH_ID: nat := 1   // FileSystemId::Flash

  datatype Link = Link(name: Name, ino: nat)

  function InfoBytes(ino: nat, mode: nat, size: nat): (b: seq<byte>)
    requires ino < U32 && mode < U32 && size < U32
    ensures |b| == INFO_SIZE
  {
    Bytes(FLASH_ID) + Bytes(ino) + Bytes(mode) + Bytes(0) + Bytes(size)
    + Bytes(0) + Bytes(0) + Bytes(0) + Bytes(0) + Bytes(0)
  }

  /** A FileInfo word by word */
  lemma RecordWords(ino: nat, mode: nat, size: nat)
    requires ino < U32 && mode < U32 && size < U32
    ensures var b := InfoBytes(ino, mode, size);
            && |b| == 40 && Word(b, 0) == 1 && Word(b, 4) == ino && Word(b, 8) == mode && Word(b, 12) == 0 && Word(b, 16) == size
            && Word(b, 20) == 0 && Word(b, 24) == 0 && Word(b, 28) == 0 && Word(b, 32) == 0 && Word(b, 36) == 0
  {
    hide Word, Bytes;
    var b := InfoBytes(ino, mode, size);
    var words := [1, ino, mode, 0, size, 0, 0, 0, 0, 0];
    forall i | 0 <= i < 10
      ensures Word(b, 4 * i) == words[i]
    {
      assert b[4 * i..4 * i + 4] == Bytes(words[i]);
      WordOfBytes(b, 4 * i, words[i]);
    }
    assert Word(b, 4 * 0) == 1 && Word(b, 4 * 1) == ino && Word(b, 4 * 2) == mode && Word(b, 4 * 4) == size;
    assert Word(b, 4 * 3) == Word(b, 4 * 5) == Word(b, 4 * 6) == Word(b, 4 * 7) == Word(b, 4 * 8) == Word(b, 4 * 9) == 0;
  }

  // What the reader needs of it
  ghost predicate RecordOk(record: seq<byte>, ino: nat, mode: nat, size: nat) {
    && |record| == INFO_SIZE
    && Word(record, INO) == ino && Word(record, MODE) == mode && Word(record, FILE_SIZE) == size && Word(record, DATA) == 0
  }

  lemma InfoWords(ino: nat, mode: nat, size: nat)
    requires ino < U32 && mode < U32 && size < U32
    ensures RecordOk(InfoBytes(ino, mode, size), ino, mode, size)
  {
    hide InfoBytes, Word;
    RecordWords(ino, mode, size);
  }

  lemma WordAfter(front: seq<byte>, b: seq<byte>, o: nat)
    requires o + 4 <= |b|
    ensures Word(front + b, |front| + o) == Word(b, o)
  {
    assert (front + b)[|front| + o..|front| + o + 4] == b[o..o + 4];
  }

  // The records of a directory, and the relocations of their pointers from `start` on
  ghost predicate GoodLinks(files: seq<Link>, offsets: map<nat, nat>) {
    forall i | 0 <= i < |files| :: GoodName(files[i].name) && files[i].ino in offsets && offsets[files[i].ino] < U32
  }

  ghost function DirectoryBytes(files: seq<Link>, offsets: map<nat, nat>): (b: seq<byte>)
    requires GoodLinks(files, offsets)
    ensures |b| == ENTRY_SIZE * |files|
  {
    if files == [] then []
    else
      var n := |files| - 1;
      DirectoryBytes(files[..n], offsets) + Padded(files[n].name) + Bytes(offsets[files[n].ino])
  }

  function DirectoryRelocs(n: nat, start: nat, symbol: nat): (rs: seq<Reloc>)
    ensures |rs| == n
    ensures forall j | 0 <= j < n :: rs[j] == Reloc(start + ENTRY_SIZE * j + NAME_SIZE, symbol)
  {
    if n == 0 then [] else DirectoryRelocs(n - 1, start, symbol) + [Reloc(start + ENTRY_SIZE * (n - 1) + NAME_SIZE, symbol)]
  }

  lemma {:induction false} RecordAt(files: seq<Link>, offsets: map<nat, nat>, j: nat)
    requires GoodLinks(files, offsets)
    requires j < |files|
    ensures var b, a := DirectoryBytes(files, offsets), ENTRY_SIZE * j;
            && b[a..a + NAME_SIZE] == Padded(files[j].name)
            && b[a + NAME_SIZE..a + ENTRY_SIZE] == Bytes(offsets[files[j].ino])
  {
    hide Bytes, Padded;
    var n := |files| - 1;
    var front := DirectoryBytes(files[..n], offsets);
    if j < n {
      RecordAt(files[..n], offsets, j);
      assert DirectoryBytes(files, offsets)[..|front|] == front;
      var b, a := DirectoryBytes(files, offsets), ENTRY_SIZE * j;
      assert b[a..a + NAME_SIZE] == front[a..a + NAME_SIZE] && b[a + NAME_SIZE..a + ENTRY_SIZE] == front[a + NAME_SIZE..a + ENTRY_SIZE];
    }
  }

  // ------------------------------------------------------------------ framing

  // The image only grew, and new relocations are in what was added.
  ghost predicate Grew(im: Image, im': Image) {
    && im.data <= im'.data && im.symbols <= im'.symbols && im.relocs <= im'.relocs
    && (forall i | |im.relocs| <= i < |im'.relocs| :: im'.relocs[i].offset >= |im.data|)
  }

  lemma CleanKept(im: Image, im': Image, a: nat, n: nat)
    requires Grew(im, im') && Clean(im.relocs, a, n) && a + n <= |im.data|
    ensures Clean(im'.relocs, a, n)
  {
    forall r | r in im'.relocs
      ensures r.offset + 4 <= a || a + n <= r.offset
    {
      var i :| 0 <= i < |im'.relocs| && im'.relocs[i] == r;
      if i < |im.relocs| {
        assert im.relocs[i] in im.relocs;
      }
    }
  }

  lemma RelocKept(im: Image, im': Image, offset: nat, value: nat)
    requires Grew(im, im') && HasReloc(im, offset, value)
    ensures HasReloc(im', offset, value)
  {
    var i :| RelocAt(im, i, offset, value);
    assert RelocAt(im', i, offset, value);
  }

  lemma WordKept(data: seq<byte>, data': seq<byte>, o: nat)
    requires data <= data' && o + 4 <= |data|
    ensures Word(data', o) == Word(data, o)
  {
    assert data'[o..o + 4] == data[o..o + 4];
  }

  lemma SliceKept(data: seq<byte>, data': seq<byte>, a: nat, b: nat)
    requires data <= data' && a <= b <= |data|
    ensures data'[a..b] == data[a..b]
  {
  }

  lemma InfoKept(im: Image, im': Image, n: Built, size: nat)
    requires Grew(im, im') && InfoOk(im, n, size)
    ensures InfoOk(im', n, size)
  {
    hide Word, Clean, HasReloc;
    WordKept(im.data, im'.data, n.info + INO);
    WordKept(im.data, im'.data, n.info + MODE);
    WordKept(im.data, im'.data, n.info + FILE_SIZE);
    WordKept(im.data, im'.data, n.info + DATA);
    CleanKept(im, im', n.info, DATA);
    RelocKept(im, im', n.info + DATA, n.start);
  }

  lemma BuiltKept(im: Image, im': Image, nodes: seq<Built>, nodes': seq<Built>, k: nat)
    requires Grew(im, im') && k < |nodes| && nodes <= nodes' && BuiltOk(im, nodes, k)
    ensures BuiltOk(im', nodes', k)
  {
    hide InfoOk, Word, Clean, HasReloc, Padded;
    var n := nodes[k];
    InfoKept(im, im', n, Size(n.content));
    assert n.info <= |im.data| && n.start <= n.info && n.start + Size(n.content) == n.info by { InfoBounds(im, n, Size(n.content)); }
    match n.content
    case File(bytes) =>
      SliceKept(im.data, im'.data, n.start, n.info);
      CleanKept(im, im', n.start, |bytes|);
    case Directory(entries) =>
      forall j | 0 <= j < |entries|
        ensures ChildOk(im', nodes', k, j)
      {
        assert ChildOk(im, nodes, k, j);
        var a := n.start + ENTRY_SIZE * j;
        SliceKept(im.data, im'.data, a, a + NAME_SIZE);
        WordKept(im.data, im'.data, a + NAME_SIZE);
        CleanKept(im, im', a, NAME_SIZE);
        RelocKept(im, im', a + NAME_SIZE, 0);
      }
  }

  lemma InfoBounds(im: Image, n: Built, size: nat)
    requires InfoOk(im, n, size)
    ensures n.start + size == n.info && n.info + INFO_SIZE <= |im.data|
  {
  }

  // ------------------------------------------------------------------ the tool

  // What add_file appends: the bytes, a FileInfo, its symbols and the relocation of m_data
  ghost predicate Appended(im: Image, im': Image, stream: seq<byte>, record: seq<byte>, ino: nat) {
    var info := |im.data| + |stream|;
    && |record| == INFO_SIZE && im'.data == im.data + stream + record
    && im'.symbols == im.symbols + [|im.data|, info] + (if ino == ROOT_INODE then [info] else [])
    && im'.relocs == im.relocs + [Reloc(info + DATA, |im.symbols|)]
  }

  lemma AppendedInfo(im: Image, im': Image, stream: seq<byte>, record: seq<byte>, n: Built)
    requires Appended(im, im', stream, record, n.ino) && RecordOk(record, n.ino, n.mode, |stream|)
    requires Clean(im.relocs, |im.data|, INFO_SIZE + |stream|)
    requires n.start == |im.data| && n.info == n.start + |stream|
    ensures InfoOk(im', n, |stream|)
    ensures Grew(im, im') && Clean(im'.relocs, |im.data|, |stream|)
  {
    hide Word;
    var front := im.data + stream;
    WordAfter(front, record, INO);
    WordAfter(front, record, MODE);
    WordAfter(front, record, FILE_SIZE);
    WordAfter(front, record, DATA);
    assert RelocAt(im', |im.relocs|, n.info + DATA, n.start);
  }

  // All relocations are in the data written so far, at different words.
  ghost predicate RelocsOk(im: Image) {
    Apart(im.relocs) && forall i | 0 <= i < |im.relocs| :: im.relocs[i].offset + 4 <= |im.data|
  }

  class Builder {
    var data: seq<byte>
    var symbols: seq<nat>
    var relocs: seq<Reloc>
    var inodeToOffset: map<nat, nat>
    var nextInode: nat
    const baseSymbol: nat
    ghost var nodes: seq<Built>
    ghost var nodeOf: map<nat, nat>

    ghost function View(): Image
      reads this
    {
      Image(data, symbols, relocs)
    }

    ghost predicate Valid()
      reads this
    {
      && RelocsOk(View()) && ImageOk(View(), nodes)
      && baseSymbol < |symbols| && symbols[baseSymbol] == 0
      && inodeToOffset.Keys == nodeOf.Keys
      && forall ino | ino in nodeOf :: nodeOf[ino] < |nodes| && nodes[nodeOf[ino]].info == inodeToOffset[ino]
    }

    // The undefined symbol and __flash_base
    constructor ()
      ensures Valid() && nodes == [] && nodeOf == map[] && data == [] && nextInode == 3
    {
      data, symbols, relocs := [], [0, 0], [];
      baseSymbol := 1;
      inodeToOffset, nextInode := map[], 3;
      nodes, nodeOf := [], map[];
    }

    method AddSymbol(value: nat) returns (index: nat)
      modifies this`symbols
      ensures index == |old(symbols)| && symbols == old(symbols) + [value]
    {
      index := |symbols|;
      symbols := symbols + [value];
    }

    // Offsets point into the image.
    lemma OffsetsFit()
      requires Valid()
      ensures forall ino | ino in inodeToOffset :: inodeToOffset[ino] < |data|
    {
      forall ino | ino in inodeToOffset
        ensures inodeToOffset[ino] < |data|
      {
        assert BuiltOk(View(), nodes, nodeOf[ino]);
      }
    }

    /** Loaded anywhere, the image gives back each file and each directory that was added. */
    lemma RoundTrip(base: nat, ino: nat)
      requires Valid() && ino in inodeToOffset && base + |data| < U32
      ensures nodeOf[ino] < |nodes| && nodes[nodeOf[ino]].info == inodeToOffset[ino]
      ensures nodes[nodeOf[ino]].content.Directory? ==>
        forall e | e in nodes[nodeOf[ino]].content.entries :: e.child < nodeOf[ino]
      ensures var n, memory := nodes[nodeOf[ino]], Load(data, relocs, symbols, base);
              match n.content
              case File(bytes) => Read(memory, base, inodeToOffset[ino]) == Some(FileNode(n.ino, bytes))
              case Directory(_) => DirectoryIs(memory, base, nodes, nodeOf[ino])
    {
      hide Load, Read, DirectoryIs, BuiltOk;
      if nodes[nodeOf[ino]].content.File? {
        FileReadsBack(View(), nodes, base, nodeOf[ino]);
      } else {
        DirectoryReadsBack(View(), nodes, base, nodeOf[ino]);
      }
    }

    // add_file
    method Write(stream: seq<byte>, mode: nat, inode: nat) returns (ino: nat, start: nat)
      requires mode < U32 && inode < U32 && nextInode < U32 && |stream| < U32
      modifies this`data, this`symbols, this`relocs, this`inodeToOffset, this`nextInode
      ensures ino == (if inode == 0 then old(nextInode) else inode) && ino < U32 && start == |old(data)|
      ensures nextInode == old(nextInode) + if inode == 0 then 1 else 0
      ensures Appended(old(View()), View(), stream, InfoBytes(ino, mode, |stream|), ino)
      ensures inodeToOffset == old(inodeToOffset)[ino := start + |stream|]
    {
      hide InfoBytes;
      ghost var im := View();
      ino := inode;
      if ino == 0 {
        ino, nextInode := nextInode, nextInode + 1;
      }
      start := |data|;
      data := data + stream;
      var dataSymbol := AddSymbol(start);
      var info := |data|;
      data := data + InfoBytes(ino, mode, |stream|);
      var _ := AddSymbol(info);
      if ino == ROOT_INODE {
        var _ := AddSymbol(info);   // __flash_root
      }
      relocs := relocs + [Reloc(info + DATA, dataSymbol)];
      inodeToOffset := inodeToOffset[ino := info];
      TwoMore(im.symbols, im.symbols + [start], start, info);
    }

    /** The file is in the image, and what was there before still is. */
    method AddFile(stream: seq<byte>, mode: nat) returns (ino: nat)
      requires Valid() && nextInode < U32 && |stream| < U32 && mode < U32 && mode % FORMAT == REGULAR
      modifies this
      ensures Valid() && ino == old(nextInode) && nextInode == old(nextInode) + 1
      ensures nodes == old(nodes) + [Built(ino, mode, |old(data)|, |old(data)| + |stream|, File(stream))]
      ensures nodeOf == old(nodeOf)[ino := |old(nodes)|]
    {
      hide InfoBytes, Clean, Apart, Word, BuiltOk;
      ghost var im, before := View(), nodes;
      var start;
      ino, start := Write(stream, mode, 0);
      ghost var record, node := InfoBytes(ino, mode, |stream|), Built(ino, mode, start, start + |stream|, File(stream));
      InfoWords(ino, mode, |stream|);
      BeyondIsClean(im, INFO_SIZE + |stream|);
      AppendedInfo(im, View(), stream, record, node);
      AppendedApart(im, View(), stream, record, ino);
      nodes := nodes + [node];
      nodeOf := nodeOf[ino := |before|];
      FileBuilt(View(), nodes, |before|, node, stream);
      forall k | 0 <= k < |before|
        ensures BuiltOk(View(), nodes, k)
      {
        BuiltKept(im, View(), before, nodes, k);
      }
    }

    // The loop over the files of a directory
    method Records(files: seq<Link>) returns (stream: seq<byte>, pending: seq<Reloc>)
      requires GoodLinks(files, inodeToOffset)
      ensures stream == DirectoryBytes(files, inodeToOffset) && pending == DirectoryRelocs(|files|, 0, baseSymbol)
    {
      hide Bytes, Padded;
      stream, pending := [], [];
      for j := 0 to |files|
        invariant |stream| == ENTRY_SIZE * j && stream == DirectoryBytes(files[..j], inodeToOffset)
        invariant pending == DirectoryRelocs(j, 0, baseSymbol)
      {
        assert files[..j + 1][..j] == files[..j];
        var infoOffset := |stream|;
        stream := stream + Padded(files[j].name) + Bytes(inodeToOffset[files[j].ino]);
        pending := pending + [Reloc(infoOffset + NAME_SIZE, baseSymbol)];
      }
      assert files[..|files|] == files;
    }

    // The loop over their relocations, once the load offset is known
    method AddRelocs(pending: seq<Reloc>, start: nat)
      requires pending == DirectoryRelocs(|pending|, 0, baseSymbol)
      modifies this`relocs
      ensures relocs == old(relocs) + DirectoryRelocs(|pending|, start, baseSymbol)
    {
      for j := 0 to |pending|
        invariant relocs == old(relocs) + DirectoryRelocs(j, start, baseSymbol)
      {
        relocs := relocs + [Reloc(pending[j].offset + start, pending[j].symbol)];
      }
    }

    /** Every name must be short, and every file it stands for must have been added before. */
    method AddDirectory(files: seq<Link>, inode: nat) returns (ino: nat)
      requires Valid() && nextInode < U32 && inode < U32 && |data| + ENTRY_SIZE * |files| < U32
      requires forall i | 0 <= i < |files| :: GoodName(files[i].name) && files[i].ino in inodeToOffset
      modifies this
      ensures Valid() && ino == (if inode == 0 then old(nextInode) else inode)
      ensures nextInode == old(nextInode) + if inode == 0 then 1 else 0
      ensures var start := |old(data)|;
              nodes == old(nodes) + [Built(ino, DIRECTORY, start, start + ENTRY_SIZE * |files|, Directory(EntriesOf(files, old(nodeOf))))]
      ensures nodeOf == old(nodeOf)[ino := |old(nodes)|]
      // __flash_root, the last symbol, leads to the record of inode 2.
      ensures ino == 2 ==> symbols[|symbols| - 1] == nodes[|old(nodes)|].info == inodeToOffset[2]
    {
      hide InfoBytes, Clean, Apart, Word, BuiltOk, Padded, Bytes, DirectoryBytes;
      ghost var im, before, offsets, entries := View(), nodes, inodeToOffset, EntriesOf(files, nodeOf);
      OffsetsFit();
      var stream, pending := Records(files);
      var start;
      ino, start := Write(stream, DIRECTORY, inode);
      ghost var im1 := View();
      AddRelocs(pending, start);
      ghost var record, node := InfoBytes(ino, DIRECTORY, |stream|), Built(ino, DIRECTORY, start, start + |stream|, Directory(entries));
      InfoWords(ino, DIRECTORY, |stream|);
      nodes := nodes + [node];
      DirectoryAdded(im, im1, View(), before, node, stream, record, files, offsets, nodeOf, baseSymbol);
      nodeOf := nodeOf[ino := |before|];
    }
  }

  // Everything that was in the image still is, and the new directory is too.
  lemma {:induction false} DirectoryAdded(im: Image, im1: Image, im': Image, nodes: seq<Built>, node: Built, stream: seq<byte>, record: seq<byte>,
                       files: seq<Link>, offsets: map<nat, nat>, nodeOf: map<nat, nat>, symbol: nat)
    requires ImageOk(im, nodes) && GoodLinks(files, offsets) && stream == DirectoryBytes(files, offsets)
    requires AppendedDirectory(im, im1, im', stream, record, |files|, symbol, node.ino)
    requires RecordOk(record, node.ino, node.mode, |stream|) && node.mode % FORMAT == DIRECTORY
    requires node.start == |im.data| && node.info == node.start + |stream|
    requires offsets.Keys == nodeOf.Keys && node.content == Directory(EntriesOf(files, nodeOf))
    requires forall ino | ino in nodeOf :: nodeOf[ino] < |nodes| && nodes[nodeOf[ino]].info == offsets[ino] < |im.data|
    ensures ImageOk(im', nodes + [node]) && RelocsOk(im')
  {
    hide Clean, Apart, Word, BuiltOk, Padded, Bytes, DirectoryBytes, Appended, RecordOk, EntryOk, HasReloc, AppendedDirectory;
    var k, nodes' := |nodes|, nodes + [node];
    DirectoryApart(im, im1, im', stream, record, |files|, symbol, node.ino);
    DirectoryInfo(im, im1, im', stream, record, |files|, symbol, node);
    forall j | 0 <= j < k
      ensures BuiltOk(im', nodes', j)
    {
      BuiltKept(im, im', nodes, nodes', j);
    }
    forall j | 0 <= j < |files|
      ensures ChildOk(im', nodes', k, j)
    {
      DirectoryEntry(im, im1, im', stream, record, symbol, node.ino, files, offsets, j);
    }
    DirectoryBuilt(im', nodes', k, node);
  }

  lemma TwoMore(s: seq<nat>, s1: seq<nat>, a: nat, b: nat)
    requires s1 == s + [a]
    ensures s1 + [b] == s + [a, b] == s + [a, b] + []
  {
  }

  lemma BeyondIsClean(im: Image, n: nat)
    requires RelocsOk(im)
    ensures Clean(im.relocs, |im.data|, n)
  {
  }

  lemma AppendedApart(im: Image, im': Image, stream: seq<byte>, record: seq<byte>, ino: nat)
    requires Appended(im, im', stream, record, ino) && RelocsOk(im)
    ensures RelocsOk(im')
  {
  }

  lemma FileBuilt(im: Image, nodes: seq<Built>, k: nat, n: Built, stream: seq<byte>)
    requires k < |nodes| && nodes[k] == n && n.content == File(stream) && n.mode % FORMAT == REGULAR
    requires InfoOk(im, n, |stream|) && im.data[n.start..n.info] == stream && Clean(im.relocs, n.start, |stream|)
    ensures BuiltOk(im, nodes, k)
  {
  }

  // The image after add_directory: a file, and the relocations of its n records
  ghost predicate AppendedDirectory(im: Image, im1: Image, im': Image, stream: seq<byte>, record: seq<byte>, n: nat, symbol: nat, ino: nat) {
    && RelocsOk(im) && symbol < |im.symbols| && im.symbols[symbol] == 0 && |stream| == ENTRY_SIZE * n
    && Appended(im, im1, stream, record, ino)
    && im' == im1.(relocs := im1.relocs + DirectoryRelocs(n, |im.data|, symbol))
  }

  lemma DirectoryApart(im: Image, im1: Image, im': Image, stream: seq<byte>, record: seq<byte>, n: nat, symbol: nat, ino: nat)
    requires AppendedDirectory(im, im1, im', stream, record, n, symbol, ino)
    ensures RelocsOk(im') && Grew(im, im')
  {
  }

  lemma DirectoryInfo(im: Image, im1: Image, im': Image, stream: seq<byte>, record: seq<byte>, n: nat, symbol: nat, node: Built)
    requires AppendedDirectory(im, im1, im', stream, record, n, symbol, node.ino)
    requires RecordOk(record, node.ino, node.mode, |stream|)
    requires node.start == |im.data| && node.info == node.start + |stream|
    ensures InfoOk(im', node, |stream|)
  {
    hide Word;
    BeyondIsClean(im, INFO_SIZE + |stream|);
    AppendedInfo(im, im1, stream, record, node);
    assert RelocAt(im', |im.relocs|, node.info + DATA, node.start);
  }

  lemma DirectoryEntry(im: Image, im1: Image, im': Image, stream: seq<byte>, record: seq<byte>, symbol: nat, ino: nat,
                       files: seq<Link>, offsets: map<nat, nat>, j: nat)
    requires GoodLinks(files, offsets) && j < |files| && stream == DirectoryBytes(files, offsets)
    requires AppendedDirectory(im, im1, im', stream, record, |files|, symbol, ino)
    ensures EntryOk(im', |im.data| + ENTRY_SIZE * j, files[j].name, offsets[files[j].ino])
  {
    hide DirectoryBytes, Word, Padded, Bytes;
    var a := |im.data| + ENTRY_SIZE * j;
    RecordAt(files, offsets, j);
    assert im'.data[a..a + NAME_SIZE] == stream[ENTRY_SIZE * j..ENTRY_SIZE * j + NAME_SIZE];
    assert im'.data[a + NAME_SIZE..a + NAME_SIZE + 4] == stream[ENTRY_SIZE * j + NAME_SIZE..ENTRY_SIZE * j + ENTRY_SIZE];
    WordOfBytes(im'.data, a + NAME_SIZE, offsets[files[j].ino]);
    assert RelocAt(im', |im1.relocs| + j, a + NAME_SIZE, 0);
  }

  function EntriesOf(files: seq<Link>, nodeOf: map<nat, nat>): (es: seq<Entry>)
    requires forall i | 0 <= i < |files| :: files[i].ino in nodeOf
    ensures |es| == |files| && forall i | 0 <= i < |files| :: es[i].name == files[i].name && es[i].child == nodeOf[files[i].ino]
  {
    seq(|files|, i requires 0 <= i < |files| => Entry(files[i].name, nodeOf[files[i].ino]))
  }

  lemma DirectoryBuilt(im: Image, nodes: seq<Built>, k: nat, n: Built)
    requires k < |nodes| && nodes[k] == n && n.content.Directory? && n.mode % FORMAT == DIRECTORY
    requires InfoOk(im, n, Size(n.content))
    requires forall j | 0 <= j < |n.content.entries| :: ChildOk(im, nodes, k, j)
    ensures BuiltOk(im, nodes, k)
  {
  }
}

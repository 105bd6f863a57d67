# Models and proofs

Verified models, in Dafny 4.11, of the algorithmic parts of this repository: the ordered object graph,
the instantiation, the measurements, the expressions and the geometry of the footprint editor fped; the AES
cipher and the copy-on-write disks of the emulator; the order of package versions; and the U-Boot environment
editor. `dafny verify dfyconfig.toml` verifies all of them.

Code that changes things step by step is modelled that way: classes with the fields of the C structures,
methods with the loops of the C functions, real `next` pointers where links are bent in place. Each such
method is proved against a specification of what it is for, and the promises of the code are then theorems
about that specification. C pointers to pointers are positions (a node, or the head of a list); what the
pointers of a whole list say is kept beside them in ghost variables.

| files | component |
|---|---|
| `AesTables`, `AesField`, `AesSbox`, `AesSpec`, `AesWords`, `AesKeys`, `AesBlock`, `AesKnown` | `aes.c`: tables, key schedules and block functions, against FIPS 197 |
| `AesCbc`, `AesVectors` | `aes.c`: cipher block chaining, section 6.2 of NIST SP 800-38A |
| `DeleteLog`, `DeleteColumns`, `DeleteUndo` | `delete.c`: the log of deletions, and undoing |
| `DeleteCascade`, `DeleteActions`, `DeleteSound`, `DeleteRuns` | `delete.c`: what each delete function takes away, that nothing is left that refers to it, and runs of them |
| `TopSortSpec`, `TopSort` | `tsort.c` |
| `Vecs`, `VecMove` | `inst.c`: a new base for a vector |
| `DumpOrder` | `dump.c`: the order in which a frame is written |
| `InstantiateSpec`, `InstantiateRuns`, `Instantiate` | `obj.c` |
| `Bitset`, `Meas` | `bitset.c`, `meas.c` |
| `Expr`, `Variables`, `VariableUnits`, `Unparse` | `expr.c`, `unparse.c`, and the grammar of expressions |
| `Overlap` | `overlap.c` |
| `CowDisk` | `block-cow.c` |
| `VersionOrder` | `opkg-compare-versions.c` |
| `EnvVars`, `EnvImage`, `EnvEdit`, `EnvRuns` | `var.c`, `env.c`, `parse.c` |
| `OverlayMachine` | `gui_over.c` |
| `SeqMinus`, `Wrappers` | shared: sequences without some elements, options, positions, folded conditions |

## Where the code does not do what one would expect

In these cases the model follows the code. Where a promise fails there is an input that shows it, and the exact
condition under which the code does meet the promise.

- Cipher block chaining leaves the deciphered block instead of the ciphertext block in the vector after a
  partial block (`src/host/qemu-neo1973/aes.c:1312-1318`). The two sides stay in step exactly after whole
  blocks, or if the cipher maps the last block to itself (`AesVectors.InStepExactly`, `AesVectors.OutOfStep`).
- A sign in front of a sign is printed as `--a`, which the grammar cannot read again
  (`eda/fped/unparse.c:86-129`, `eda/fped/fpd.y:1173-1254`); nor are lengths with an exponent other than one
  written in a way that the lexer knows. Everything else is read back (`Unparse.RoundTrip`,
  `Unparse.DoubleSign`).
- The difference of two numbers in package versions is cut to 32 bits
  (`src/host/opkg-utils/opkg-compare-versions.c:58`), so a much larger number may be found smaller, or equal
  (`VersionOrder.VerRevExactly`, `VersionOrder.LargeNumbers`). The operators `<` and `>` are weak
  (`VersionOrder.Operators`).
- A name with a `=` or an empty value does not survive writing and reading an environment, although `set_var`
  takes both (`EnvImage.ImageRoundTrip`). Assignments, images and edit files without a NUL never put such a
  thing in the store (`EnvRuns.RunsKeep`), but an edit file can whose value consists of NULs and whitespace
  (`src/host/envedit/parse.c:135-155`; `EnvEdit.EmptyExactly`, `EnvEdit.EmptyValue`, `EnvEdit.EmptyLost`).
- The number of bits, rounded up, is taken as the number of words of a bit set (`eda/fped/bitset.c:36`): too
  many, never too few (`Bitset.Bitset.constructor`, `Bitset.WordsTooMany`).
- Two circles are found to overlap up to almost one unit apart, and a circle is taken for the square around it
  when compared with a rectangle (`Overlap.CirclesExactly`, `Overlap.CirclesApart`, `Overlap.CircleRectExactly`,
  `Overlap.CircleRectApart`). Where touching is allowed, two circles are compared exactly
  (`Overlap.CirclesTouch`).
- The comment of the topological sort says that the first node with inbound edges is sorted first
  (`eda/fped/tsort.c:18-20`); it is the first without them (`TopSort.Sorter.Select`).

## Model

| member | source | states |
|---|---|---|
| `AesWords.Te0Holds` | src/host/qemu-neo1973/aes.c:54-54 | Table Te0, entry by entry, is the S-box byte times 02, 01, 01, 03. |
| `AesWords.Te1Holds` | src/host/qemu-neo1973/aes.c:55-55 | Table Te1 is the same column, rotated by one byte. |
| `AesWords.Te2Holds` | src/host/qemu-neo1973/aes.c:56-56 | Table Te2 is the same column, rotated by two bytes. |
| `AesWords.Te3Holds` | src/host/qemu-neo1973/aes.c:57-57 | Table Te3 is the same column, rotated by three bytes. |
| `AesWords.Te4Holds` | src/host/qemu-neo1973/aes.c:58-58 | Table Te4 repeats the S-box byte. |
| `AesWords.Td0Holds` | src/host/qemu-neo1973/aes.c:60-60 | Table Td0 is the inverse S-box byte times 0e, 09, 0d, 0b. |
| `AesWords.Td1Holds` | src/host/qemu-neo1973/aes.c:61-61 | Table Td1 is the same column, rotated by one byte. |
| `AesWords.Td2Holds` | src/host/qemu-neo1973/aes.c:62-62 | Table Td2 is the same column, rotated by two bytes. |
| `AesWords.Td3Holds` | src/host/qemu-neo1973/aes.c:63-63 | Table Td3 is the same column, rotated by three bytes. |
| `AesWords.Td4Holds` | src/host/qemu-neo1973/aes.c:64-64 | Table Td4 repeats the inverse S-box byte. |
| `AesSbox.SboxIs` | src/host/qemu-neo1973/aes.c:58-58 | The byte that Te4 repeats is, for every index, the affine image of the multiplicative inverse in GF(2^8), as section 5.1.1 of FIPS 197 defines the S-box. |
| `AesField.SboxInverse` | src/host/qemu-neo1973/aes.c:58-64 | The bytes of Td4 are the inverse permutation of those of Te4. |
| `AesField.MixInverse` | src/host/qemu-neo1973/aes.c:52-65 | The columns that the Td tables hold undo the columns that the Te tables hold, on every column. |
| `AesField.InvMixLinear` | src/host/qemu-neo1973/aes.c:859-882 | The inverse column transformation is linear, which is why round keys can be passed through it. |
| `AesWords.EncryptWordBytes` | src/host/qemu-neo1973/aes.c:987-1015 | One word of a table-driven round is one column of SubBytes, ShiftRows, MixColumns and AddRoundKey. |
| `AesWords.DecryptWordBytes` | src/host/qemu-neo1973/aes.c:1178-1206 | One word of an inverse round is one column of the inverse transformations in the order of section 5.3.5 of FIPS 197. |
| `AesWords.LastEncryptWordBytes` | src/host/qemu-neo1973/aes.c:1048-1075 | The last round leaves MixColumns out. |
| `AesWords.LastDecryptWordBytes` | src/host/qemu-neo1973/aes.c:1239-1266 | The last inverse round leaves InvMixColumns out. |
| `AesWords.InvMixWordBytes` | src/host/qemu-neo1973/aes.c:862-881 | Looking up Te4 bytes in the Td tables is InvMixColumn of the word: the two S-boxes cancel. |
| `AesKeys.ExpandHead` | src/host/qemu-neo1973/aes.c:764-770 | The assignment to the first word of a round of the expansion is that of KeyExpansion in section 5.2 of FIPS 197, for all key sizes. |
| `AesKeys.ExpandMiddle` | src/host/qemu-neo1973/aes.c:819-824 | So is the additional substitution in the middle of the expansion of 256-bit keys. |
| `AesKeys.Expand128` | src/host/qemu-neo1973/aes.c:763-778 | The loop for 128-bit keys writes the 44 words of KeyExpansion, whatever is in the rest of the array. |
| `AesKeys.Expand192` | src/host/qemu-neo1973/aes.c:783-800 | The loop for 192-bit keys writes the 52 words of KeyExpansion. |
| `AesKeys.Expand256` | src/host/qemu-neo1973/aes.c:805-830 | The loop for 256-bit keys writes the 60 words of KeyExpansion. |
| `AesKeys.ReverseKeys` | src/host/qemu-neo1973/aes.c:852-858 | The swaps reverse the order of the round keys, and keep the words in each. |
| `AesKeys.TransformKeys` | src/host/qemu-neo1973/aes.c:859-882 | All round keys but the first and the last are passed through the inverse column transformation. |
| `AesBlock.AesSetEncryptKey` | src/host/qemu-neo1973/aes.c:737-833 | The result tells a missing key, then a wrong size; otherwise the number of rounds fits the size, and the key object holds the schedule of section 5.2 of FIPS 197. On an error the object is untouched. |
| `AesBlock.AesSetDecryptKey` | src/host/qemu-neo1973/aes.c:838-884 | The same errors; otherwise the object holds the schedule in reverse order, its inner round keys transformed. |
| `AesBlock.SchedulesMatch` | src/host/qemu-neo1973/aes.c:838-884 | That schedule is the one which the equivalent inverse cipher of section 5.3.5 needs. |
| `AesBlock.RunRounds` | src/host/qemu-neo1973/aes.c:986-1042 | The loop that runs two rounds to an iteration computes all full rounds, one after the other, and leaves the key pointer at the last round key. |
| `AesBlock.EncryptRunMeans` | src/host/qemu-neo1973/aes.c:891-1076 | The run over words and tables is Cipher of section 5.1 of FIPS 197, for every schedule and every block. |
| `AesBlock.DecryptRunMeans` | src/host/qemu-neo1973/aes.c:1082-1267 | The inverse run is EqInvCipher of section 5.3.5, for every schedule and every block. |
| `AesBlock.AesEncrypt` | src/host/qemu-neo1973/aes.c:891-1076 | 16 bytes of the output are the cipher of the 16 bytes of the input under the key, all others stay; input and output may be the same buffer. |
| `AesBlock.AesDecrypt` | src/host/qemu-neo1973/aes.c:1082-1267 | The same for the equivalent inverse cipher. |
| `AesSpec.DecryptUndoesEncrypt` | src/host/qemu-neo1973/aes.c:1082-1267 | For every sequence of round keys and every state, the equivalent inverse cipher under the transformed schedule undoes the cipher. |
| `AesBlock.RoundTrip` | src/host/qemu-neo1973/aes.c:838-1267 | A block encrypted under a user key comes back under the decryption key set from the same user key, for all three key sizes. |
| `AesKnown.KnownAnswer` | src/host/qemu-neo1973/aes.c:737-1076 | The example of FIPS 197, appendix C.1: key expansion and cipher give the ciphertext of the standard. |
| `AesKnown.Known192` | src/host/qemu-neo1973/aes.c:783-800 | Appendix A.2: the words that follow a key of 192 bits. |
| `AesKnown.Known256` | src/host/qemu-neo1973/aes.c:805-830 | Appendix A.3: the words that follow a key of 256 bits, with the additional substitution. |
| `AesCbc.EncryptStream` | src/host/qemu-neo1973/aes.c:1282-1300 | In and out buffer of any length: out is CBC encryption, with the last block filled up with zeroes, and the vector for the next call is the last ciphertext block. |
| `AesCbc.DecryptStream` | src/host/qemu-neo1973/aes.c:1301-1319 | Decryption writes as many bytes as asked for, in place or from buffer to buffer; after a partial block the vector is what the code leaves there. |
| `AesCbc.AesCbcEncrypt` | src/host/qemu-neo1973/aes.c:1271-1320 | The entry point for both directions. |
| `AesCbc.EncryptedInPieces` | src/host/qemu-neo1973/aes.c:1282-1300 | Encrypting in several calls, all but the last of whole blocks, is encrypting at once. |
| `AesCbc.CbcRoundTrip` | src/host/qemu-neo1973/aes.c:1271-1320 | For every schedule, length and vector: decrypting what was encrypted gives the plaintext back. |
| `AesCbc.StreamRoundTrip` | src/host/qemu-neo1973/aes.c:1271-1320 | The same for any block function and its inverse, with the vectors that both sides are left with. |
| `AesVectors.InStepExactly` | src/host/qemu-neo1973/aes.c:1292-1318 | Both sides are left with the same vector if and only if the length is a multiple of 16 or the cipher maps the last block to itself: after a partial block, the decrypting side keeps the deciphered block (lines 1312-1318). |
| `AesVectors.InStepAfterBlocks` | src/host/qemu-neo1973/aes.c:1283-1311 | What a caller can check: after whole blocks the vectors agree. |
| `AesVectors.OneOutOfStep` | src/host/qemu-neo1973/aes.c:1312-1318 | For every schedule, vector and byte: changing the last round key puts the two sides out of step after one byte, or they were before. |
| `AesVectors.OutOfStep` | src/host/qemu-neo1973/aes.c:1312-1318 | A concrete key, vector and plaintext of one byte with which the two sides are out of step. |
| `DeleteUndo.Document.Unlink` | eda/fped/delete.c:80-90 | The walk to the predecessor, the unlinking and the entry in the log, as every delete function does it: one element leaves its list, and what it points to stays remembered. |
| `DeleteUndo.Document.Relink` | eda/fped/delete.c:196-205 | Undeleting an element puts it back where it was; the assertions about its successor hold whenever it is reached. |
| `DeleteUndo.Document.DeleteColumn` | eda/fped/delete.c:339-371 | Element n of the variables and of the values of every row goes, and nothing else; the values taken stay chained. |
| `DeleteUndo.Document.UndeleteColumn` | eda/fped/delete.c:374-397 | The chain of values goes back into the rows, so that all lists are as they were. |
| `DeleteUndo.Document.UndeleteOne` | eda/fped/delete.c:645-680 | Undoing the newest entry of the log, whatever kind it has, leads back to the lists before it. |
| `DeleteUndo.Document.Undelete` | eda/fped/delete.c:683-693 | Undoing the newest group leads back to the lists and the log before it; the result tells if there was one. |
| `DeleteUndo.UndeleteUndoesDelete` | eda/fped/delete.c:683-693 | Undeleting right after any delete function leads back to lists and log as they were. |
| `DeleteUndo.UndeleteUndoesRun` | eda/fped/delete.c:683-693 | After any run of delete functions, k undeletes lead back to all lists and the log before the last k. |
| `DeleteActions.DeleteObjs` | eda/fped/delete.c:152-159 | The walk takes all objects that refer to the vector, or to the frame, and keeps the order of the others. |
| `DeleteActions.DoDeleteVec` | eda/fped/delete.c:162-186 | The recursion ends, and takes the vector, all that depend on it, and their users in the frame and in the root frame, each once. |
| `DeleteActions.DeleteVecsByRef` | eda/fped/delete.c:117-124 | The walk over the bases takes exactly the branches of the vector, though it goes on from elements that the recursion has unlinked. |
| `DeleteActions.DeleteVec` | eda/fped/delete.c:189-193 | Exactly the transitive dependents go, with all objects that refer to them; what stays keeps its order, and the bases of the survivors still come before them. |
| `DeleteActions.DeleteNode` | eda/fped/delete.c:268-272 | Objects, rows (lines 305-321), tables (420-437) and loops (465-482): one element goes. |
| `DeleteActions.DeleteReferences` | eda/fped/delete.c:535-561 | All objects of other frames go that refer to the frame or measure in it. |
| `DeleteActions.DeleteFrame` | eda/fped/delete.c:564-581 | The frame goes, and exactly those objects. |
| `DeleteActions.FrameHitsIn` | eda/fped/delete.c:524-561 | Which objects these are: those that are a reference to the frame, or name it in a qualifier of a measurement. |
| `DeleteActions.BasesFirstAfter` | eda/fped/delete.c:109-124 | Survivors of a cascade do not depend on what has gone. |
| `DeleteSound.VecTakes` | eda/fped/delete.c:109-187 | Told from the fields: with a vector go exactly the vectors whose base goes, and the objects of which the anchor, the other corner, an end of the arc, or the high end of the measurement goes; nothing else. |
| `DeleteSound.VecSound` | eda/fped/delete.c:109-187 | If everything named is on its list (bases, the vectors of objects, which are of their frame, those that measurements of the root frame name, referenced frames and qualifiers), it is so after a vector has been deleted. |
| `DeleteSound.FrameTakes` | eda/fped/delete.c:524-561 | Told from the fields: with a frame go exactly the objects of other frames that are a reference to it, measure from or to one of its vectors, or name it in a qualifier. |
| `DeleteSound.FrameSound` | eda/fped/delete.c:524-581 | Nothing comes to dangle when a frame is deleted. |
| `DeleteCascade.SkipsUnlinked` | eda/fped/delete.c:117-124 | Links out of unlinked elements lead, over unlinked ones, to the next that is still on the list, also after another one is unlinked. |
| `DeleteRuns.ActionKeeps` | eda/fped/delete.c:162-593 | Every delete function keeps what all of them rely on. |
| `DeleteRuns.ActionSound` | eda/fped/delete.c:162-593 | Every delete function leaves everything that is named on its list. |
| `DeleteRuns.RunKeepsWhole` | eda/fped/delete.c:162-593 | So any run of them does, and after any run nothing dangles that did not before. |
| `DeleteRuns.Delete` | eda/fped/delete.c:162-593 | Any delete function, wherever it can be called: the lists after it, one more group in the log, and the next one can follow. |
| `DeleteRuns.DeleteAndUndelete` | eda/fped/delete.c:162-693 | Any run of delete functions, and then any number of undeletes: the lists are those after the run without its end; after as many undeletes as deletes, lists and log are as at first. |
| `TopSort.Sorter.AddNode` | eda/fped/tsort.c:89-107 | The node of a user is found, or a new one is appended. |
| `TopSort.Sorter.AddEdge` | eda/fped/tsort.c:72-86 | An edge is added, or its priority is added to the edge there is; incoming edges are counted. |
| `TopSort.Sorter.Select` | eda/fped/tsort.c:131-139 | The search delivers the next node: without incoming edges, of the highest priority, and of these the first; or none is left without incoming edges. |
| `TopSort.Sorter.EndSort` | eda/fped/tsort.c:122-162 | A cycle is reported exactly if there is one; otherwise every node is output once, in the order that the rules of priority determine, with the array filled exactly. |
| `TopSortSpec.CompleteIffAcyclic` | eda/fped/tsort.c:130-161 | An output that cannot go on is complete if and only if the graph has no cycle. |
| `TopSortSpec.OriginsFirst` | eda/fped/tsort.c:130-161 | What is output comes after the origins of all edges to it. |
| `TopSortSpec.OutOnce` | eda/fped/tsort.c:130-161 | No node is output twice, and only nodes of the graph are. |
| `TopSortSpec.GreedyUnique` | eda/fped/tsort.c:130-161 | Edges, priorities and order of insertion leave one output only. |
| `TopSortSpec.SortedStays` | eda/fped/tsort.c:130-161 | Without priorities, an order that already is topological comes out unchanged. |
| `VecMove.FindPoint` | eda/fped/inst.c:656-670 | A base is offered if and only if it does not depend on the vector. |
| `VecMove.Frame.MarkUsers` | eda/fped/inst.c:700-706 | The loops mark exactly the vectors up to the new base that depend on the one moved. |
| `VecMove.Frame.Repair` | eda/fped/inst.c:715-727 | The pointer surgery moves the marked vectors behind the new base, in their order, and nothing else. |
| `VecMove.Frame.MoveTo` | eda/fped/inst.c:682-728 | The new base is set, and the list is the reordered one, with bases before their users. |
| `VecMove.MoveRepairs` | eda/fped/inst.c:682-728 | The reordered list is a permutation, has bases before users again, and keeps the order among the moved and among the others. |
| `DumpOrder.Frame.VecRefs` | eda/fped/dump.c:38-48 | The number of vectors based on this one. |
| `DumpOrder.Frame.MayPutNow` | eda/fped/dump.c:95-134 | An object may go now if and only if it refers to the vector just output, and all it refers to is out. |
| `DumpOrder.VectorsBefore` | eda/fped/dump.c:95-134 | Told from the fields: in an order, the anchor and each vector of the shape come before the object, and the vector it is put at is one of these. |
| `DumpOrder.Frame.PutObj` | eda/fped/dump.c:137-144 | An object is output once, with the vector before it. |
| `DumpOrder.Frame.RecurseVec` | eda/fped/dump.c:152-166 | A vector, then all objects that only waited for it, then, if exactly one vector is based on it, that vector. |
| `DumpOrder.Frame.OrderVecs` | eda/fped/dump.c:169-176 | Every vector is output, after its base. |
| `DumpOrder.Frame.OrderFrame` | eda/fped/dump.c:179-211 | Every vector once and after its base, every object but measurements once and after all vectors it refers to, with the vector last output before it, and nothing for none; the array is filled exactly. |
| `DumpOrder.EntryCount` | eda/fped/dump.c:179-210 | An order without repetition is complete if and only if it has as many entries as the array is made for, so the assertion at the end holds. |
| `Instantiate.EnumerateFrames` | eda/fped/obj.c:469-477 | The frames are numbered from 0 on. |
| `Instantiate.Engine.GenerateVecs` | eda/fped/obj.c:171-197 | The vectors are posted in their order, all of them if all goes well. |
| `Instantiate.Engine.GenerateObjs` | eda/fped/obj.c:200-278 | One complete call for each object that refers to a frame, up to the object that fails; a reference is active if the frame is and the user selected it. |
| `Instantiate.Engine.GenerateItems` | eda/fped/obj.c:281-295 | Vectors, then objects, with exactly the current rows and values of tables and loops, and the current parents of the frames on the chain of calls, recorded. |
| `Instantiate.Engine.IterateTables` | eda/fped/obj.c:372-394 | One run for each row, with that row current, and active for the active row only. |
| `Instantiate.Engine.RunLoops` | eda/fped/obj.c:298-369 | One run for each value from the first to the last, or a failure after 1000; bounds without a value, or with a dimension, fail; no loop is started that runs. |
| `Instantiate.Engine.GenerateFrame` | eda/fped/obj.c:397-415 | A call tells all it has done, complete or failed, with the caller as parent; frame set and initialized loops are afterwards as before. |
| `Instantiate.Instantiate` | eda/fped/obj.c:480-512 | Complete: for each combination of rows and loop values all vectors and one complete call per reference, with exactly those rows and values current, and as parent of each frame on the chain of calls the one before it, of the first none; or complete up to a failure. Every vector is posted with exactly the frames on the chain of calls that lead to it. Items are active at most once for each frame, and what is current during generation is reset. |
| `InstantiateRuns.CallPosts` | eda/fped/obj.c:171-415 | In a complete or failed call, each vector among the events was posted at the end of a path of references that begins with the chain of calls, with the numbers of exactly the frames on that path. |
| `InstantiateSpec.AtMostOnce` | eda/fped/obj.c:200-415 | From one active call of the root frame, no frame is generated actively twice. |
| `InstantiateSpec.NotRunning` | eda/fped/obj.c:333-333 | The assertion that a loop is not initialized yet holds. |
| `Bitset.Bitset.constructor` | eda/fped/bitset.c:31-39 | A new set is empty, and has room for the numbers asked for (in fact for more: the number of words is taken from the number of bits). |
| `Bitset.WordsTooMany` | eda/fped/bitset.c:36-37 | There are as many words as the next multiple of 32 has bits: 32 words for a single number. |
| `Bitset.Bitset.Clone` | eda/fped/bitset.c:42-53 | A copy has the same elements, in memory of its own. |
| `Bitset.Bitset.Set` | eda/fped/bitset.c:63-67 | Setting a bit adds the element. |
| `Bitset.Bitset.Clear` | eda/fped/bitset.c:70-74 | Clearing a bit removes it. |
| `Bitset.Bitset.Pick` | eda/fped/bitset.c:77-81 | Membership. |
| `Bitset.Bitset.IsEmpty` | eda/fped/bitset.c:84-92 | Emptiness. |
| `Bitset.Bitset.Zero` | eda/fped/bitset.c:95-101 | Removing all elements. |
| `Bitset.Bitset.Meet` | eda/fped/bitset.c:104-111 | Intersection. |
| `Bitset.Bitset.Join` | eda/fped/bitset.c:114-121 | Union. |
| `Bitset.Bitset.Ge` | eda/fped/bitset.c:124-133 | Inclusion. |
| `Bitset.CombineBit` | eda/fped/bitset.c:95-131 | Operations on words are operations on their bits. |
| `Meas.Samples.Add` | eda/fped/meas.c:57-83 | The list stays sorted and stands for all posts so far, though some of them are merged. |
| `Meas.Samples.FindMin` | eda/fped/meas.c:189-202 | The least position of all posts that the qualifier admits, and none if there is none. |
| `Meas.Samples.FindMax` | eda/fped/meas.c:220-233 | The greatest position. |
| `Meas.Samples.FindNext` | eda/fped/meas.c:205-217 | The least position above the reference, of these the closest; if there is none above, the greatest of all. |
| `Meas.ExtremesMean` | eda/fped/meas.c:189-233 | Told in coordinates: least and greatest are by rows from left to right, along x by x and then y. |
| `Meas.NextAlongX` | eda/fped/meas.c:129-179 | Told in coordinates: beyond the reference along x, the least x is taken, of level ones the closest along y, of equally close ones that on the positive side. |
| `Meas.NextAlongY` | eda/fped/meas.c:129-179 | The same along y. |
| `Meas.NextByRows` | eda/fped/meas.c:147-179 | By rows, the first position behind the reference is taken. |
| `Meas.NextBehind` | eda/fped/meas.c:205-217 | With nothing beyond the reference, the last position by rows is taken. |
| `Meas.OneAnswer` | eda/fped/meas.c:129-233 | Each query has one answer that the set of posts determines, in whichever order they came. |
| `Meas.SameCandidates` | eda/fped/meas.c:57-83 | No qualifier can tell the compressed list from the set of all posts. |
| `Meas.Measure` | eda/fped/meas.c:252-294 | The ends of a measurement are those determined by the posts at both vectors, and there is none exactly if one of them has no post that its qualifier admits. |
| `Meas.TypesMean` | eda/fped/meas.c:109-125 | Which order the six types of measurement use, and whether they look for the next position or the greatest. |
| `Meas.MeasuresOne` | eda/fped/meas.c:252-294 | So a measurement does not depend on the order of instantiation. |
| `Expr.SumPhys` | eda/fped/expr.c:216-239 | Making two numbers compatible does not change the quantities they stand for, and sums are sums of quantities. |
| `Expr.MultPhys` | eda/fped/expr.c:242-261 | The same for products, with exponents, also negative ones. |
| `Expr.DivPhys` | eda/fped/expr.c:367-377 | The same for quotients; dividing by zero is undefined in every unit. |
| `Expr.SqrtPhys` | eda/fped/expr.c:293-311 | Roots of quantities with even exponent. |
| `Expr.SameUnit` | eda/fped/expr.c:216-417 | Sums, products and quotients of numbers in the same unit are in that unit; sums need the same exponent. |
| `Expr.MilsAdded` | eda/fped/expr.c:216-239 | A mil is 0.0254 mm; in areas the square counts, in what is per length the inverse. |
| `Expr.Angles` | eda/fped/expr.c:264-278 | Angles are in degrees, and numbers with a dimension are none. |
| `Expr.Roots` | eda/fped/expr.c:293-311 | Only even exponents have a root, and it has half the exponent. |
| `Expr.EvalPhys` | eda/fped/expr.c:216-417 | Evaluation in mixed units is evaluation of physical quantities, for every expression. |
| `Expr.UnitsDoNotMatter` | eda/fped/expr.c:216-417 | Writing mil^e as the equal mm^e anywhere leaves quantity, exponent and definedness of the result unchanged. |
| `Expr.RewrittenInMm` | eda/fped/expr.c:216-261 | Every expression can be written in this way with millimeters only, and back. |
| `Variables.EvalNum` | eda/fped/expr.c:415-418 | Evaluation ends, for all tables, also mutually recursive ones, leaves all flags as they were, and has the value of the specification. |
| `Variables.EvalVar` | eda/fped/expr.c:122-164 | A name stands for the first variable of the tables, then for a loop, then for what it is in the parent; one being evaluated has no value. |
| `Variables.TableLookup` | eda/fped/expr.c:130-146 | Told from the fields: the first variable of the name counts, with its value in the current row, or in the active row if there is no current one; under evaluation it has no value. |
| `Variables.LoopLookup` | eda/fped/expr.c:147-156 | Told from the fields: loops come after tables; without a current value the active one counts, and a current value must be initialized. |
| `Variables.ParentLookup` | eda/fped/expr.c:157-161 | Told from the fields: otherwise the name is looked up in the parent during generation, or in the frame of the active reference, or it has no value. |
| `Variables.RecursiveUndef` | eda/fped/expr.c:122-164 | A variable that is reached from its own expression has no value. |
| `Variables.ValueExactly` | eda/fped/expr.c:122-164 | With some variables under evaluation, exactly what reaches one of them is undefined, and all else has the value it has by itself. |
| `VariableUnits.ValueIsEval` | eda/fped/expr.c:202-417 | Evaluation through tables is evaluation with the values of the names. |
| `VariableUnits.ValueUnits` | eda/fped/expr.c:122-417 | Writing lengths in the other unit in the tables of a frame and of its parents, too, leaves every result the same quantity. |
| `Unparse.RoundTrip` | eda/fped/unparse.c:25-136 | What is printed for an expression can be read by the grammar (eda/fped/fpd.y:1173-1254) if and only if no sign is printed before a sign and all lengths have an exponent the lexer knows; then it has the same value, or is undefined likewise, under every assignment, even where parentheses are dropped and the tree changes. A grammar that takes several signs and all exponents reads everything. |
| `Unparse.DoubleSign` | eda/fped/unparse.c:86-129 | An input for which it cannot: two signs are printed one after the other, which the grammar does not take. |
| `Unparse.SumsPrinted` | eda/fped/unparse.c:86-129 | Where sums have parentheses, exactly: around a sum that is taken away, nowhere else. |
| `Unparse.ProductsPrinted` | eda/fped/unparse.c:86-129 | In products around sums, and behind a "/" also around products and signs; nowhere else. |
| `Unparse.OthersPrinted` | eda/fped/unparse.c:74-129 | Behind a sign around sums and products; around what a function is applied to. |
| `Unparse.NumberPrinted` | eda/fped/unparse.c:86-129 | A number has its sign in front and its unit behind, unless it has no dimension. |
| `Overlap.OverlapIsPairwise` | eda/fped/overlap.c:134-226 | The mutual recursion compares each shape of one item with each of the other. |
| `Overlap.NothingMissed` | eda/fped/overlap.c:220-226 | If any point, on the grid or between, lies in both items, they are found to overlap, in spite of truncated distances and halves. |
| `Overlap.OverlapSymmetric` | eda/fped/overlap.c:220-226 | The test is symmetric. |
| `Overlap.TouchIsStricter` | eda/fped/overlap.c:220-226 | What overlaps where touching is allowed overlaps where it is not. |
| `Overlap.CirclesExactly` | eda/fped/overlap.c:73-79 | What the test of two circles decides, exactly: with truncation, distances less than one unit above the sum of the radii count. |
| `Overlap.CircleRectExactly` | eda/fped/overlap.c:82-96 | A circle is taken for the square around it. |
| `Overlap.CirclesApart` | eda/fped/overlap.c:73-79 | Two circles that have no point in common and are found to overlap. |
| `Overlap.CircleRectApart` | eda/fped/overlap.c:82-96 | A circle and a rectangle that have no point in common and are found to overlap. |
| `Overlap.RectsExactly` | eda/fped/overlap.c:99-113 | Two rectangles overlap if and only if they have a point in common. |
| `Overlap.CirclesTouch` | eda/fped/overlap.c:73-79 | Where touching is allowed, two circles overlap if and only if they have an inner point in common: truncation makes no difference. |
| `Overlap.CircleRectTouch` | eda/fped/overlap.c:82-96 | There, a circle and a rectangle overlap if and only if the square around the circle and the rectangle have an inner point in common. |
| `Overlap.RectsTouch` | eda/fped/overlap.c:99-113 | There, two rectangles overlap if and only if they have an inner point in common. |
| `Overlap.TouchMisses` | eda/fped/overlap.c:220-226 | If an inner point of shapes of both items is common, they overlap even where touching is allowed. |
| `Overlap.PlainCovers` | eda/fped/overlap.c:178-217 | An item that is not rounded covers the rectangle between its corners. |
| `Overlap.HighCovers` | eda/fped/overlap.c:178-217 | A rounded item higher than wide covers a rectangle and the circles of half the width at its upper and lower end. |
| `Overlap.WideCovers` | eda/fped/overlap.c:178-217 | A rounded item at least as wide as high covers a rectangle and the circles of half the height at its left and right end. |
| `Overlap.InsideExactly` | eda/fped/overlap.c:26-59 | One item is inside another if and only if all points of its rectangle are in that of the other. |
| `CowDisk.LayoutApart` | src/host/qemu-neo1973/block-cow.c:96-105 | Header, bitmap and sectors do not overlap; the bitmap has a bit for each sector and less than a byte more, and the sectors begin at the next multiple of 512. |
| `CowDisk.BitIs` | src/host/qemu-neo1973/block-cow.c:117-120 | Bits are counted from the low end of a byte. |
| `CowDisk.Cow.constructor` | src/host/qemu-neo1973/block-cow.c:204-247 | A new image shows the base image, or zeroes. |
| `CowDisk.Cow.IsChanged` | src/host/qemu-neo1973/block-cow.c:126-144 | Whether the first sector is in the file, and how many that follow are so, too: the longest run. |
| `CowDisk.Cow.Read` | src/host/qemu-neo1973/block-cow.c:153-180 | Reading run by run gives what the sectors hold one by one. |
| `CowDisk.Cow.Write` | src/host/qemu-neo1973/block-cow.c:182-195 | The sectors written hold the data, all others what they held before; the header is untouched. |
| `CowDisk.WriteKeeps` | src/host/qemu-neo1973/block-cow.c:182-195 | Data do not reach the bitmap or other sectors. |
| `CowDisk.LastWriteWins` | src/host/qemu-neo1973/block-cow.c:153-195 | After any run of writes, a sector holds what was written to it last, or what it held at first. |
| `VersionOrder.VerRevCmp` | src/host/opkg-utils/opkg-compare-versions.c:34-71 | The loops compute the comparison, round by round, with the difference of numbers cut to 32 bits. |
| `VersionOrder.VerRevExactly` | src/host/opkg-utils/opkg-compare-versions.c:34-71 | The result has the sign of the lexicographic order of token keys if and only if the two numbers that decide, if numbers do, differ by what the cut keeps. |
| `VersionOrder.VerRevIsLex` | src/host/opkg-utils/opkg-compare-versions.c:34-71 | So it always has with numbers of 31 bits. |
| `VersionOrder.VerRevOrder` | src/host/opkg-utils/opkg-compare-versions.c:34-71 | It is then a total preorder, with exactly equal keys equal. |
| `VersionOrder.CharacterOrder` | src/host/opkg-utils/opkg-compare-versions.c:44-53 | Told by ranges of ASCII: letters come before all other characters, and within either kind the codes decide. |
| `VersionOrder.EndsFirst` | src/host/opkg-utils/opkg-compare-versions.c:44-53 | An end, or a digit, comes before any other character. |
| `VersionOrder.SameText` | src/host/opkg-utils/opkg-compare-versions.c:44-53 | Behind the same text, what follows decides. |
| `VersionOrder.NumberOrder` | src/host/opkg-utils/opkg-compare-versions.c:56-58 | Numbers of 31 bits are compared as numbers. |
| `VersionOrder.BehindNumbers` | src/host/opkg-utils/opkg-compare-versions.c:56-68 | Behind the same number, or two beyond the greatest long, an end, a "." or a "-" comes before everything else, an end before these two, and otherwise what follows decides. |
| `VersionOrder.LargeNumbers` | src/host/opkg-utils/opkg-compare-versions.c:56-58 | Inputs for which it is not: a number larger by 2^31 is found smaller, one larger by 2^32 equal. |
| `VersionOrder.VersionCompare` | src/host/opkg-utils/opkg-compare-versions.c:73-83 | Epoch, then version, then revision. |
| `VersionOrder.CompareIsLex` | src/host/opkg-utils/opkg-compare-versions.c:73-83 | The lexicographic order of epoch and the keys of both parts. |
| `VersionOrder.CompareOrder` | src/host/opkg-utils/opkg-compare-versions.c:73-83 | A total preorder: antisymmetric in sign, transitive, and equal exactly for equal parts. |
| `VersionOrder.Operators` | src/host/opkg-utils/opkg-compare-versions.c:85-104 | Strict and weak operators exclude each other; a plain operator holds if and only if the strict one or equality does, against what it looks like. |
| `VersionOrder.OperatorsMean` | src/host/opkg-utils/opkg-compare-versions.c:85-104 | Each operator in terms of the lexicographic order of epoch and keys; an unknown one has no answer. |
| `EnvVars.Store.Set` | src/host/envedit/var.c:30-68 | Names stay unique, the map gets the value, a free slot is reused, and the array grows only if there is none. |
| `EnvVars.Store.Delete` | src/host/envedit/var.c:71-84 | The name leaves the map. |
| `EnvVars.Store.Reset` | src/host/envedit/var.c:97-103 | Sorting does not change the map. |
| `EnvVars.BeforeMeans` | src/host/envedit/var.c:87-94 | The order of names: where two differ first, the smaller character decides, and an end comes before any character. |
| `EnvVars.SortExists` | src/host/envedit/var.c:87-103 | Whatever the slots are, they can be sorted by this order, with free slots first. |
| `EnvVars.Store.Next` | src/host/envedit/var.c:106-116 | The used slots come one by one. |
| `EnvImage.Env.ReadEnv` | src/host/envedit/env.c:78-126 | The buffer holds the file, cut off or filled up; the outcome tells a short file, or a wrong checksum if it matters. |
| `EnvImage.Env.ParseEnv` | src/host/envedit/env.c:129-158 | The store gets the assignments that the bytes of the image spell out, and no others. |
| `EnvImage.Env.WriteEnv` | src/host/envedit/env.c:182-224 | Too much exactly if it does not fit; otherwise the file is the image of all variables, with its checksum. |
| `EnvImage.ImageBytes` | src/host/envedit/env.c:182-224 | The image byte by byte: the checksum from its low end, the entries as name, 61, value and 0, and zeroes up to the end. |
| `EnvImage.Env.SetEnv` | src/host/envedit/env.c:227-247 | An assignment with a value sets, one without deletes, and anything else is invalid. |
| `EnvEdit.Parser.Flush` | src/host/envedit/parse.c:55-68 | The variable is deleted if no value has begun, and else set to the trimmed value; the assertion that there is a variable holds. |
| `EnvEdit.Parser.Character` | src/host/envedit/parse.c:110-156 | One character inside a line: the next state, or a syntax error; the states in which the code aborts do not occur. |
| `EnvEdit.Parser.NewLine` | src/host/envedit/parse.c:159-196 | The first character of a line: it goes on with a value, or ends it and begins a name, or is a syntax error. |
| `EnvEdit.Parser.DoubleNewLine` | src/host/envedit/parse.c:199-216 | An empty line ends a value. |
| `EnvEdit.Parser.ParseEdit` | src/host/envedit/parse.c:219-267 | The loop, with comments, makes of the variables what the state machine says, or finds the syntax error that it finds. |
| `EnvEdit.OneLine` | src/host/envedit/parse.c:46-267 | What a line of name and value does: leading whitespace is skipped, other whitespace becomes spaces, NULs get lost, the end is trimmed; nothing but whitespace deletes. |
| `EnvEdit.NextName` | src/host/envedit/parse.c:159-196 | A line that begins with a name ends the value before it: the file goes on as if it began there. |
| `EnvEdit.Continued` | src/host/envedit/parse.c:159-196 | A line that begins with whitespace goes on with the value before it, after a single space. |
| `EnvEdit.Comment` | src/host/envedit/parse.c:219-267 | A comment goes up to the end of its line. |
| `EnvEdit.FirstCharacter` | src/host/envedit/parse.c:98-196 | Told by codes: a name begins with a letter or an underscore. |
| `EnvEdit.NameCharacter` | src/host/envedit/parse.c:104-156 | Told by codes: a name goes on with letters, digits and underscores, and whitespace ends it. |
| `EnvEdit.ValueCharacter` | src/host/envedit/parse.c:110-156 | Told by codes: what a value of one character is. |
| `EnvEdit.InnerCharacter` | src/host/envedit/parse.c:110-156 | Told by codes: inside a value, whitespace becomes a space and a NUL gets lost. |
| `EnvEdit.EditKeeps` | src/host/envedit/parse.c:46-267 | An edit file without a NUL sets names without a "=" to values that are not empty, or deletes, whatever else it says. |
| `EnvEdit.EmptyExactly` | src/host/envedit/parse.c:135-155 | A line leaves an empty value if and only if there is a NUL behind the "=", and nothing else but whitespace. |
| `EnvEdit.EmptyValue` | src/host/envedit/parse.c:135-155 | A file that does: the letter A, a "=", a NUL. |
| `EnvEdit.EmptyLost` | src/host/envedit/env.c:129-221 | The variable that this leaves behind is lost when it is written and read again. |
| `EnvImage.ImageRoundTrip` | src/host/envedit/env.c:129-221 | For every store without NULs that fits: the image passes the checksum, and parsing it gives the same map if and only if no name has a "=" and no value is empty. |
| `EnvRuns.RunsKeep` | src/host/envedit/env.c:129-265 | Whatever is assigned, read, even from damaged images, or edited by files without a NUL: the store only ever has names and values that can be kept. |
| `EnvRuns.ReachedRoundTrip` | src/host/envedit/env.c:129-265 | So what any run of assignments, images and edit files without a NUL leads to reads back as it was. |
| `EnvRuns.SaveAndLoad` | src/host/envedit/env.c:78-221 | Writing in one run and reading in the next gives the same variables if and only if no name has a "=" and no value is empty, or the first has reported that they do not fit. |
| `OverlayMachine.Overlay.OverEnter` | eda/fped/gui_over.c:86-107 | Permitted unless already hovering; the canvas is then the base, the hover, and what is dragged above it. |
| `OverlayMachine.Overlay.OverLeave` | eda/fped/gui_over.c:110-126 | The hover is taken away from below what is dragged. |
| `OverlayMachine.Overlay.OverBegin` | eda/fped/gui_over.c:129-149 | Something is dragged above base and hover. |
| `OverlayMachine.Overlay.OverMove` | eda/fped/gui_over.c:152-177 | What is dragged is drawn anew at its position; without anything dragged, nothing happens. |
| `OverlayMachine.Overlay.OverEnd` | eda/fped/gui_over.c:180-193 | What was dragged is taken away. |
| `OverlayMachine.Overlay.OverReset` | eda/fped/gui_over.c:196-215 | After the canvas was drawn anew, what was saved is forgotten. |
| `OverlayMachine.RestoreUndoes` | eda/fped/gui_over.c:61-83 | Restoring what was saved before drawing undoes the drawing. |
| `OverlayMachine.PermittedMeans` | eda/fped/gui_over.c:86-215 | The code aborts exactly on a second hover or drag, and on the end of one that has not begun. |
| `OverlayMachine.PixelShows` | eda/fped/gui_over.c:61-83 | What each pixel shows: the base, under what the hover paints in its area, under what is dragged paints in the area at its position. |
| `OverlayMachine.BackToBase` | eda/fped/gui_over.c:86-215 | However events follow each other: where nothing is left, the canvas shows the base. |
| `OverlayMachine.EntersBalance` | eda/fped/gui_over.c:86-215 | Begins and ends of hovering and dragging balance in every permitted run. |

## Left out

- Instantiate.Instantiate: what expressions evaluate to and whether an item can be placed is left open (any outcome is allowed), because evaluation is modelled in `Expr` and `Variables`; positions, the search for the item that was clicked (`found`, `search_suspended`), the stack of active instances, and the number of iterations kept for the display are not part of it.
- Instantiate.Engine.GenerateVecs: `meas_post` is a ghost event here; what it does with the sample list is `Meas.Samples.Add`.
- DeleteUndo.Document.Undelete: `active_ref` is not modelled, neither its reset by a deletion nor that undeleting does not bring it back; nor is freeing memory (`destroy`, `purge`).
- DeleteUndo.Document.DeleteColumn: requires that the table has the column in every row, as the editor sees to; a value and the next are chained after, not before, the value is taken out, which comes to the same links.
- DeleteActions.DeleteNode: stands for `delete_obj`, `delete_row`, `delete_table` and `delete_loop`, which differ in the list they change only.
- TopSort.Sorter.EndSort: the C code aborts on a cycle, the model reports it; the nodes are a sequence, not a list of links; integer overflow of priorities is not modelled.
- DumpOrder.Frame.OrderFrame: vectors and objects are sequences, their links are not modelled; names that are made up for unnamed vectors, and that "." is printed by adjacency in the list, are left out.
- VecMove.Frame.MoveTo: moving objects to another vector, and the drawing that goes with it, is left out.
- Meas.Measure: labels, offsets and drawing of measurements are left out.
- Expr.EvalPhys: numbers are real numbers without rounding; sine and cosine are any functions, and the square root is any function with the property of a root.
- Unparse.RoundTrip: works on tokens; the decimal digits of numbers (`%lg` and `%lf`) are left out.
- Variables.EvalVar: string variables and `expand` are left out; the chain of parents is finite by a ghost rank.
- Overlap.NothingMissed: coordinates are unbounded integers, the distance is the truncated root.
- CowDisk.Cow.constructor: the bytes of the header are a parameter; that `cow_open` reads the header back, checks it and takes the size from it is not modelled.
- CowDisk.Cow.Write: writes and reads succeed; errors of the operating system, the file name of the base image, and requests beyond the end of the disk are left out. The size of the header is a parameter, and the map of the bitmap into memory is part of the file.
- VersionOrder.VerRevCmp: strings are of ASCII characters, as the comment in the code assumes; `long` has 64 bits and `int` 32; `parseversion` is left out.
- EnvImage.Env.WriteEnv: `qsort` is any sorting of the slots; `crc32` is any function; the environment has at least 6 bytes.
- EnvEdit.Parser.ParseEdit: the preprocessor that an edit file may pass through is left out, its output is any text; line numbers in messages are not kept.
- OverlayMachine.Overlay.OverEnter: drawing changes pixels in the area that it has saved only; the canvas is a map of pixels.
- AesSbox.SboxIs: that inverses in GF(2^8) are unique is not proved.
- AES: the unrolled variant of the rounds, which is switched off, and the assembler variant are left out.
- The drawing, the widgets, the menus, and the files of fped; the other disk drivers; the disassembler; the text output for KiCad and Postscript.

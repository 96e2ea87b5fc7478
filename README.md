# Composite GAN models: a verified Dafny model

This project models the container shared by the two networks of a small
Wasserstein GAN written in Python with numpy: the `Discriminator` and the
`Generator`. Each of them holds an ordered stack of layers. It also holds two
lists, `W_deltas` and `B_deltas`, of gradient-accumulation buffers. The lists
are index-aligned with the layers: slot `i` holds a zero-initialised buffer
when layer `i` has a weight (and bias), and `None` otherwise.

The container has these operations:

- construction (buffer allocation);
- `applyDeltas(learning_rate)`, one plain gradient-descent step;
- `resetDeltas()`, which zero-fills the buffers;
- `forward(x)`, which runs the layers in ascending order;
- `backward(gradient)`, which runs the layers in descending order and lends
  the buffers to the layers;
- `state_dict()` and `load_state_dict(state)`, which export and import a flat
  dictionary keyed `layer_{i}_{field}`.

The two source files hold the same container code with one difference. The
discriminator's `backward` lends the buffers only to layers that have `W`. The
generator's `backward` lends them to every layer. Lines 14-30 and 37-59 of
`Generator.py` are the same code as lines 17-34 and 44-66 of
`Discriminator.py`.

## Structure

Modules, in dependency order:

- `Wrappers`: the `Option` type.
- `Tensors`: tensors as flat sequences of reals, zero tensors, and the descent
  step `t - rate * d`.
- `Layers`: a layer is `Stateless`, `Param` (`W`, `B`) or `ParamStats` (`W`,
  `B` and the four batch-normalisation tensors), tagged with its class. This
  module also has the roles (`W`, `B`, `scale`, `shift`, `running_mean`,
  `running_var`) for reading and assigning one tensor.
- `StateKeys`: the entry names `layer_{i}_{field}` as real strings, built with
  the decimal rendering of `i`. A parser reads a name back into its key, which
  proves that different tensors never share an entry.
- `Deltas`: buffer slots and their invariants: `Aligned` (a slot is present
  exactly at the layers that own `W`) and `Fitted` (every buffer has its
  tensor's size). Allocation, reset and the descent step are functions on
  values here.
- `Passes`: the forward pass as a left fold, and the discriminator's
  dispatching backward pass along with the sequence of calls it makes. The
  layers' own forward and backward are function parameters.
- `Snapshot`: export and import as functions on values. Import proceeds
  tensor by tensor and stops at the first missing entry.
- `Composite`: the class `CompositeModel` with fields `layers`, `wDeltas` and
  `bDeltas`. Its methods mirror the source's loops. Each method is proved equal
  to the functions above.
- `Discriminator`, `Generator`: the two concrete stacks and their properties.
  `Generator` also has the unconditional backward pass, as a method on the
  shared class, proved to agree with the dispatching one on its stack.

## Model

| member | source | states |
|---|---|---|
| Composite.CompositeModel.constructor | Discriminator.py:17-18 | The layers are the given stack. Slot `i` of each list holds a zero buffer of the size of layer `i`'s `W` (or `B`) when the layer has one, and `None` otherwise. The slots are aligned, fitted and all zero. |
| Deltas.FreshSlotsValid | Discriminator.py:17-18 | Freshly allocated slots are present exactly at the layers with `W`, have their tensors' sizes and are all zero. |
| Deltas.FreshSlots | Discriminator.py:17-18 | One slot per layer. Defined as `Some(Zeros(size of the tensor))` where the layer owns it and `None` elsewhere. |
| Tensors.Zeros | Discriminator.py:17-18 | `zeros_like` and what `fill(0)` leaves: `n` elements, all zero. |
| Layers.HasW | Discriminator.py:17 | No contract. Defined as the layer not being stateless: `hasattr(layer, 'W')`, used for `B` too. |
| Layers.HasScale | Discriminator.py:50 | No contract. Defined as the layer carrying batch-normalisation tensors: `hasattr(layer, 'scale')`. |
| Composite.CompositeModel.ApplyDeltas | Discriminator.py:21-25 | The new layers are `Applied(old layers, buffers, rate)`. The buffers are unchanged and the invariants are kept. |
| Deltas.Applied | Discriminator.py:21-25 | Applying keeps the number of layers and each layer's structure, and keeps the slots aligned and fitted. |
| Deltas.Step | Discriminator.py:24-25 | One layer's update `W -= rate * dW; B -= rate * dB` keeps the layer's structure. |
| Tensors.Descend | Discriminator.py:24-25 | `t - rate * d` keeps the tensor's size. Its elements are given by Deltas.AppliedElementwise. |
| Deltas.AppliedElementwise | Discriminator.py:21-25 | At each layer with `W`, every element becomes `W[k] - rate * dW[k]` and `B[k] - rate * dB[k]`. Layers without `W` are unchanged, and so are batch-normalisation tensors. |
| Deltas.AppliedZeroRate | Discriminator.py:21-25 | A zero learning rate leaves every layer unchanged. |
| Deltas.AppliedZeroed | Discriminator.py:21-30 | Applying all-zero buffers (after construction or a reset) changes no layer. |
| Deltas.AppliedTwice | Discriminator.py:21-25 | Applying does not consume the buffers: steps with rates `a` and then `b` equal one step with `a + b`. |
| Tensors.DescendTwice | Discriminator.py:24-25 | Two descent steps against the same buffer equal one step with the summed rate. |
| Composite.CompositeModel.ResetDeltas | Discriminator.py:26-30 | Each buffer at a layer with `W` becomes zeros of the same size. `None` slots and the layers are unchanged. If the buffers had their tensors' sizes, they still do. |
| Deltas.ClearedValid | Discriminator.py:26-30 | A reset keeps the slots aligned and each buffer's size, and leaves every buffer zero. |
| Deltas.ClearedIsFresh | Discriminator.py:26-30 | On fitted buffers, a reset gives back exactly what construction allocated. |
| Deltas.Cleared | Discriminator.py:26-30 | Keeps the number of slots. Defined as zeros of the same size at layers with `W`, with every other slot kept. Its properties are in Deltas.ClearedValid and Deltas.ClearedIsFresh. |
| Composite.CompositeModel.Forward | Discriminator.py:31-34 | The result is the input threaded through the layers first to last. The method changes nothing, buffers included. |
| Passes.Run | Discriminator.py:31-34 | No contract. Defined as the left fold of the layers' forward over the stack, first layer first. Its properties are in Passes.RunSnoc and Passes.RunAppend. |
| Passes.RunSnoc | Discriminator.py:31-34 | The pass's output is the last layer's forward applied to the output of the layers before it. |
| Passes.RunAppend | Discriminator.py:31-34 | Layers run in ascending order: a stack split in two runs its front part and then its back part. |
| Composite.CompositeModel.Backward | Discriminator.py:35-42 | The returned gradient and the new buffers are those of the backward pass from the last layer to the first. The ghost call log is that pass's call sequence. The layers are unchanged, the slots stay aligned, and fitted buffers stay fitted when the layer backward keeps buffer sizes. |
| Passes.BackwardFrom | Discriminator.py:35-42 | The backward pass over layers `n-1 .. 0` keeps the slots aligned. It keeps them fitted when the layer backward keeps buffer sizes, and it never touches a slot at index `n` or above. |
| Passes.CallAt | Discriminator.py:38-41 | No contract. Defined as the call for layer `i`: with its buffers when the layer has `W`, with the gradient alone otherwise. |
| Passes.BackwardCalls | Discriminator.py:37-41 | No contract. Defined as the calls for layers `n-1` down to `0`, in that order. Their order and dispatch are in Passes.BackwardCallOrder. |
| Passes.BackwardCallOrder | Discriminator.py:35-42 | The pass makes exactly one call per layer. Call `j` is for layer `n-1-j`, and it lends the buffers exactly when that layer has `W`. |
| Composite.CompositeModel.StateDict | Discriminator.py:44-55 | The returned dictionary is the export of the layers, built by the same sequence of insertions. |
| Snapshot.Export | Discriminator.py:44-55 | No contract. Defined as the export of all layers. Its contents are in Snapshot.ExportContents and Snapshot.ExportOnlyKeys. |
| Snapshot.ExportPrefix | Discriminator.py:45-54 | No contract. Defined as the dictionary after layers `0 .. n-1` have been exported in index order, starting from an empty one. |
| Snapshot.PutFields | Discriminator.py:47-54 | No contract. Defined as inserting the given roles of one layer, in order, each under its entry name. Its effect is in Snapshot.PutFieldsContents and Snapshot.PutFieldsNames. |
| Snapshot.ExportContents | Discriminator.py:44-55 | `layer_{i}_{field}` is in the export exactly when layer `i` owns that tensor, and it holds that tensor. |
| Snapshot.ExportOnlyKeys | Discriminator.py:44-55 | Every name in the export is the entry name of a tensor the stack owns. |
| Snapshot.PutFieldsContents | Discriminator.py:47-54 | Exporting one layer adds exactly that layer's entries, with their tensors, and keeps every other entry. |
| Snapshot.PutFieldsNames | Discriminator.py:47-54 | Exporting one layer adds no name other than its own entries. |
| Layers.Roles | Discriminator.py:47-54 | The tensors a layer persists are exactly those it owns, in the source's order `W`, `B`, `scale`, `shift`, `running_mean`, `running_var`. |
| StateKeys.RoleName | Discriminator.py:48-54 | No contract. Defined as the attribute name of each role, `W`, `B`, `scale`, `shift`, `running_mean` and `running_var`. StateKeys.RoleNamedOfName states that it can be read back. |
| StateKeys.KeyName | Discriminator.py:48-54 | No contract. Defined as `"layer_" + decimal(i) + "_" + field`. Its inverse and injectivity are in StateKeys.KeyNameParses and StateKeys.KeyNamesDistinct. |
| StateKeys.DecimalValueOfDecimal | Discriminator.py:48 | The decimal rendering of an index reads back as that index. |
| StateKeys.KeyNameParses | Discriminator.py:48-54 | Parsing the entry name of key `k` gives back `k`. |
| StateKeys.KeyNamesDistinct | Discriminator.py:48-54 | Different (index, field) pairs have different entry names. |
| Composite.CompositeModel.LoadStateDict | Discriminator.py:57-66 | The new layers and the outcome are those of the import from layer 0. The buffers are unchanged and the slots stay aligned. |
| Snapshot.LoadFrom | Discriminator.py:57-66 | Import keeps the number of layers and each layer's structure. |
| Layers.SetField | Discriminator.py:60-66 | Assigning one tensor sets it, keeps the layer's structure and leaves its other tensors unchanged. |
| Snapshot.LoadFields | Discriminator.py:59-66 | Assigning the given roles of one layer keeps the layer's structure. What gets assigned is in Snapshot.LoadFieldsContents. |
| Snapshot.LoadLayer | Discriminator.py:58-66 | One iteration of the import loop keeps the layer's structure. What gets assigned is in Snapshot.LoadLayerContents. |
| Snapshot.LoadLayerContents | Discriminator.py:58-66 | When all of the layer's entries are present, every owned tensor equals its entry. Otherwise it reports the first missing one: the tensors before it are assigned and the ones from it on are as they were. |
| Snapshot.LoadFieldsContents | Discriminator.py:59-66 | Within a layer, import assigns the tensors in order. When all entries are present, every tensor equals its entry. Otherwise it reports the first missing one: the tensors before it are assigned and the ones from it on are as they were. |
| Snapshot.LoadSucceedsIff | Discriminator.py:57-66 | Import succeeds exactly when every tensor the stack owns has its entry. |
| Snapshot.LoadAssignsAll | Discriminator.py:57-66 | After a successful import, every owned tensor equals its entry. |
| Snapshot.LoadStopsAtFirstMissing | Discriminator.py:57-66 | A failed import reports an owned entry that is absent. Every tensor before it in reading order has already been assigned from the dictionary, and every tensor from it on is as it was. |
| Snapshot.LoadExported | Discriminator.py:44-66 | Importing one stack's export into a stack of the same structure succeeds and makes the two stacks equal. |
| Snapshot.LoadOwnExport | Discriminator.py:44-66 | Round trip: importing a stack's own export succeeds and changes nothing. |
| Snapshot.LoadIsNotAtomic | Discriminator.py:57-61 | On a two-layer stack and a dictionary missing layer 1's entries, import assigns layer 0 and then fails on `layer_1_W`. |
| Discriminator.Stack | Discriminator.py:9-15 | Five layers. A layer has `W` exactly at even indices (the two convolutions and the dense layer), and no layer has batch-normalisation tensors. |
| Discriminator.New | Discriminator.py:8-18 | The new model holds the stack, with zero buffers at layers 0, 2 and 4 and `None` at the dropout layers. |
| Discriminator.SnapshotKeys | Discriminator.py:44-55 | The snapshot holds `W` and `B` of layers 0, 2 and 4 and no other entry. |
| Discriminator.BackwardDispatch | Discriminator.py:35-42 | The backward calls are, in order: layer 4 with buffers, layer 3 without, layer 2 with, layer 1 without, layer 0 with. |
| Discriminator.ForwardOrder | Discriminator.py:31-34 | The output is dense(dropout(conv(dropout(conv(x))))). |
| Generator.Stack | Generator.py:7-12 | Four layers, all with `W`. The first three have batch-normalisation tensors. |
| Generator.New | Generator.py:6-15 | The new model holds the stack, with a zero buffer in every slot. |
| Generator.SnapshotKeys | Generator.py:37-48 | The snapshot holds `W` and `B` of all four layers and the four statistics of layers 0-2, and no other entry. |
| Generator.BackwardAll | Generator.py:31-35 | The unconditional backward pass keeps the slots aligned and never touches a slot at index `n` or above. |
| Generator.BackwardAllAgrees | Generator.py:31-35 | On a stack where every layer has `W`, the unconditional pass equals the discriminator's dispatching pass, whatever the stateless backward is. |
| Generator.BackwardCallsAllWithDeltas | Generator.py:31-35 | On such a stack, call `j` is for layer `n-1-j` and always lends the buffers. |
| Generator.Backward | Generator.py:31-35 | The returned gradient and the new buffers are those of the unconditional pass. Every call lends the buffers, in descending index order. The layers are unchanged, the slots stay aligned, and fitted buffers stay fitted when the layer backward keeps buffer sizes. |
| Generator.BackwardDispatch | Generator.py:31-35 | The backward calls are layers 3, 2, 1 and 0, each with its buffers. |

## Left out

- The layers' own computations (convolution, transposed convolution, dense, dropout, batch normalisation, activations) are parameters of the passes with no contract. The layer classes are not part of this model.
- Layer state changed inside `layer.forward` or `layer.backward`, such as cached inputs, dropout masks and running-statistic updates, is not modelled. A layer's forward is a function of the layer and the input, and the passes leave the layers unchanged.
- How a layer's backward combines its gradient into the buffers (accumulate or overwrite) belongs to the layer. The model has the layer hand back the new buffer contents, which stands for the buffers being lent by reference.
- `batch_size`, the layer hyperparameters and the tensor shapes are not modelled. A tensor is a flat sequence, and only its length matters. The stacks take their initial tensors as parameters, because the layer constructors produce them.
- numpy floating point and broadcasting are replaced by exact real arithmetic on equal-length sequences.
- ApplyDeltas: requires every buffer to have its tensor's size, where numpy would raise or broadcast on a mismatch. After an import that changed a tensor's size, that can fail, because import checks no sizes and never reallocates the buffers.
- Aliasing is not modelled. `state_dict` returns the live arrays, and `load_state_dict` installs the dictionary's arrays, so later in-place updates show on both sides. The model's snapshot is a value copy.
- The dictionary's insertion order is not modelled: a snapshot is an unordered map.
- Discriminator.Stack, Generator.Stack and the two SnapshotKeys lemmas assume facts about the layer classes, which are not part of this model. Conv2D, TConv2D and Dense own `W` and `B`, and Dropout owns nothing. `scale`, `shift`, `running_mean` and `running_var` exist exactly on the three layers built with `batch_norm=True` (Generator.py:8-10), and on no discriminator layer.
- A layer is assumed to have `B` exactly when it has `W`. The source checks `W` for both buffers everywhere except in allocation, which checks `B` for `B_deltas`.
- Generator.Backward: requires every layer to have `W`. On a stack with a stateless layer, the source would pass `None` buffers to that layer, and the model excludes that case.
- A failed import is the outcome `MissingKey` rather than a raised `KeyError`. Other failures, such as a state that is not a mapping, are not modelled.
- Checkpoint file I/O and the training loop that calls these operations are not part of this model.

# A verified model of a small MNIST neural network

This project is a Dafny model of the training core of a C++ multilayer-perceptron library for
MNIST digit classification. It covers:

- the fully connected (Dense) layer and the ReLU/softmax activation layer;
- the SGD optimizer with gradient clipping;
- the cross-entropy loss and its gradient;
- the network container, which chains layers forward and backward, updates them, and saves and
  loads their parameters;
- batch accuracy and min-max scaling;
- the IDX (MNIST) file decoder, pixel scaling and one-hot encoding.

Every `float` of the program is an exact `real`. The exponential and the natural logarithm are
parameters `exp`/`log` of the members that use them. The softmax members require `exp` to be
positive everywhere.

Modules follow the source files:

| module | file | models |
|---|---|---|
| `Tensor` | `tensor.dfy` | the batch types and the finite sums the formulas use |
| `Errors` | `errors.dfy` | the exceptions, as values |
| `Optimizer` | `optimizer.dfy` | `src/optimizer.cpp` |
| `Loss` | `loss.dfy` | `src/loss.cpp` |
| `ModelFile` | `model_file.dfy` | the model file, as a sequence of tokens |
| `Layers` | `layers.dfy` | `src/layers.cpp`, `include/layers.hpp` |
| `Network` | `network.dfy` | `src/neural_network.cpp` |
| `Utils` | `utils.dfy` | `src/utils.cpp` |
| `MnistLoader` | `mnist.dfy` | `src/mnist_loader.cpp` |

The mutable objects of the program are classes with the program's own fields. A field that is a
vector is a `seq` field that the methods reassign. The classes are `DenseLayer`,
`ActivationLayer`, `SGDOptimizer` and `NeuralNetwork`.

Each layer's fields are summarised by a `LayerState` value. The network's methods are proved
against pure functions over a sequence of layer states: `ForwardFrom`, `BackwardFrom`,
`UpdateAll`, `SaveAll` and `LoadFrom`. The properties of the program are proved as lemmas about
those functions. The list of layers is a sequence of `Layer` values, each `Dense` or
`Activation`; this takes the place of the C++ virtual `Layer` interface.

Exceptions become `Result` values:

- an unknown activation kind gives `InvalidArgument`, as the C++ `std::invalid_argument` does;
- a negative element count in an IDX header, a negative class count in one-hot encoding and a
  negative Dense layer size give `LengthError`, as the `std::vector` constructor and `resize` do.

A loader reads its file as a byte sequence. A read past the end of the file leaves the zero the
program stored beforehand.

## Model

| member | source | states |
|---|---|---|
| Tensor.ArgMax | src/utils.cpp:13-18 | the position `std::max_element` returns: the first index holding the largest entry, every earlier entry strictly smaller; 0 for an empty row |
| Tensor.ColumnSumAppend | src/layers.cpp:53-55 | a column sum over two stacked batches is the sum of the two batches' column sums |
| Tensor.ColumnProductAppend | src/layers.cpp:53-57 | the same for the products of an input column and a gradient column |
| Optimizer.Clip | src/optimizer.cpp:7-10 | the clipped gradient lies in [-1, 1], is the gradient itself when it is already there, and is 1 above 1 and -1 below -1 |
| Optimizer.StepMatrix | src/optimizer.cpp:5-6 | one step keeps the shape of the weight matrix |
| Optimizer.StepVector | src/optimizer.cpp:17 | one step keeps the length of the bias vector |
| Optimizer.ScaledClipBounded | src/optimizer.cpp:9-11 | the learning rate times a clipped gradient is at most the absolute learning rate in size |
| Optimizer.StepMatrixBounded | src/optimizer.cpp:9-11 | no weight moves by more than the absolute learning rate in one step |
| Optimizer.StepVectorBounded | src/optimizer.cpp:20-22 | no bias moves by more than the absolute learning rate in one step |
| Optimizer.StepMatrixEntry | src/optimizer.cpp:11 | a zero gradient entry leaves its weight unchanged; a gradient already in [-1, 1] is applied unclipped |
| Optimizer.StepVectorEntry | src/optimizer.cpp:22 | a zero gradient entry leaves its bias unchanged; a gradient already in [-1, 1] is applied unclipped |
| Optimizer.ClippedStepExample | src/optimizer.cpp:9-11 | with learning rate 0.1, weight 1.0 and gradient 2.0 the weight becomes 0.9 and not 0.8 |
| Optimizer.SGDOptimizer.constructor | include/optimizer.hpp:19 | the learning rate is the one given; it is a constant afterwards |
| Optimizer.SGDOptimizer.UpdateMatrix | src/optimizer.cpp:4-14 | the result is every weight minus the learning rate times its clipped gradient (`StepMatrix`) |
| Optimizer.SGDOptimizer.UpdateVector | src/optimizer.cpp:16-24 | the result is every bias minus the learning rate times its clipped gradient (`StepVector`) |
| Loss.CalculateLoss | src/loss.cpp:3-15 | the loss is minus the sum of `target * log(prediction + 1e-9)` over all entries, divided by the number of rows |
| Loss.LogLikelihoodAppend | src/loss.cpp:7-12 | the summed terms of two stacked batches are the sum of each batch's summed terms |
| Loss.LogLikelihoodPrefix | src/loss.cpp:7-12 | the summed terms depend only on the rows they sum |
| Loss.LossIsRowMean | src/loss.cpp:14 | the loss is a mean over rows: a batch stacked on itself has the same loss |
| Loss.SingleRowLoss | src/loss.cpp:14 | a one-row loss is minus that row's summed terms, not divided by the row's width |
| Loss.CalculateGradient | src/loss.cpp:17-28 | the gradient has the shape of the predictions, entry `[i][j]` is `predictions[i][j] - targets[i][j]`, and it is all zeros when predictions equal targets |
| ModelFile.Floats | src/layers.cpp:145 | a block write of a vector is one float token per entry, in order |
| ModelFile.ReadFloats | src/layers.cpp:166 | a block read of `n` floats succeeds exactly when the source starts with `n` float tokens; it returns their values and the tokens after them |
| ModelFile.ReadRows | src/layers.cpp:165-167 | reading `rows` rows of `cols` floats gives a `rows` x `cols` matrix |
| ModelFile.ReadRecord | src/layers.cpp:153-171 | a record read into a layer of shape `in` x `out` gives an `in` x `out` weight matrix and `out` biases |
| ModelFile.FloatsRoundTrip | src/layers.cpp:144-170 | reading back a block write gives the vector back and leaves what follows |
| ModelFile.RowsRoundTrip | src/layers.cpp:144-167 | reading back the rows of a matrix gives the matrix back and leaves what follows |
| ModelFile.RecordRoundTrip | src/layers.cpp:136-171 | loading a Dense record into a layer of the same shape restores the weights and biases exactly and reads no further than the record |
| ModelFile.FlattenSnoc | src/layers.cpp:144-146 | writing one more row appends that row's block write |
| ModelFile.ConcatAppend | src/neural_network.cpp:47-49 | the writes of `a` and then those of `b` are the writes of `a + b` |
| Layers.Affine | src/layers.cpp:27 | the Dense output has one row per input row and one column per bias |
| Layers.WeightGradients | src/layers.cpp:48 | the weight gradients have the shape of the weights |
| Layers.BiasGradients | src/layers.cpp:49 | one bias gradient per output |
| Layers.InputGradients | src/layers.cpp:50 | the input gradients have one row per example and one column per input |
| Layers.ReluValue | src/layers.cpp:93 | `max(0, v)`: never negative, `v` when positive, 0 otherwise |
| Layers.Relu | src/layers.cpp:91-95 | ReLU keeps the shape of its input |
| Layers.ReluMask | src/layers.cpp:117-122 | the ReLU backward pass keeps a gradient entry where the cached input is positive and zeroes it where that input is zero or negative; entries past the cache are kept |
| Layers.SumExp | src/layers.cpp:99-102 | the sum of the shifted exponentials of a non-empty row is positive |
| Layers.RowMax | src/layers.cpp:98 | the shift is the row's largest entry |
| Layers.SoftmaxRow | src/layers.cpp:97-105 | softmax keeps the row length and every entry is positive |
| Layers.Softmax | src/layers.cpp:97-106 | the softmax matrix keeps the shape of its input |
| Layers.ActivationOutput | src/layers.cpp:86-112 | the forward result is an error exactly when the kind is neither "relu" nor "softmax" |
| Layers.ActivationGradient | src/layers.cpp:114-132 | softmax returns the gradient unchanged; the result is an error exactly when the kind is neither "relu" nor "softmax" |
| Layers.AffineLoop | src/layers.cpp:27-38 | the nested loops compute `b[j] + Σ_k x[i][k] * w[k][j]` for every entry |
| Layers.AccumulateColumn | src/layers.cpp:56-59 | the innermost loop adds `x[i][k] * g[i][j]` to weight gradient `[k][j]` and `g[i][j] * w[k][j]` to input gradient `[i][k]`, and changes no other column |
| Layers.AccumulateExample | src/layers.cpp:54-60 | one example adds its outer product to the weight gradients and its gradient row to the bias gradients, and gives its input-gradient row |
| Layers.AccumulateGradients | src/layers.cpp:48-61 | after the loops, the weight gradients are the sums `Σ_i x[i][k] * g[i][j]`, the bias gradients the column sums of the gradient, and the input gradients `Σ_j g[i][j] * w[k][j]` |
| Layers.DivideMatrix | src/layers.cpp:64-68 | every weight gradient is divided by the batch size, shape kept |
| Layers.DivideVector | src/layers.cpp:69-71 | every bias gradient is divided by the batch size |
| Layers.ReluLoop | src/layers.cpp:88-95 | the in-place loop over a copy of the input computes `Relu` |
| Layers.SoftmaxRowLoop | src/layers.cpp:98-105 | the two loops over a row compute `SoftmaxRow` |
| Layers.SoftmaxLoop | src/layers.cpp:97-106 | the loop over the rows computes `Softmax` |
| Layers.ReluMaskLoop | src/layers.cpp:115-122 | the in-place loop over a copy of the gradient computes `ReluMask` |
| Layers.DenseLayer.constructor | src/layers.cpp:9-22 | for sizes that are not negative: the weights are `input_size` rows of `output_size` given initial values in [-0.1, 0.1], the biases `output_size` zeros, and nothing is cached |
| Layers.NewDenseLayer | src/layers.cpp:9-22 | construction from `int` sizes fails with `LengthError` exactly when a size is negative; otherwise it gives a fresh layer as the constructor builds it |
| Layers.DenseLayer.Forward | src/layers.cpp:25-39 | the input batch is cached and the output is the affine map `Affine`; weights, biases and gradients are unchanged |
| Layers.DenseLayer.Backward | src/layers.cpp:42-74 | the weight and bias gradients become the batch averages and the result is the un-averaged input gradient; weights, biases and cache are unchanged |
| Layers.DenseLayer.Update | src/layers.cpp:78-81 | the weights take one step against the weight gradients and the biases one step against the bias gradients; nothing else changes |
| Layers.DenseLayer.Save | src/layers.cpp:136-150 | the record is input size, output size, the weights row by row, then the biases |
| Layers.DenseLayer.Load | src/layers.cpp:153-171 | weights and biases become those of the record read, the rest of the source is returned, cache and gradients are unchanged |
| Layers.ActivationLayer.constructor | src/layers.cpp:84 | the kind is the one given and nothing is cached |
| Layers.ActivationLayer.Forward | src/layers.cpp:86-112 | the input is cached, also on the error path, and the result is `ActivationOutput` |
| Layers.ActivationLayer.Backward | src/layers.cpp:114-132 | the result is `ActivationGradient` of the cached input |
| Layers.ActivationLayer.Update | include/layers.hpp:56 | update changes nothing |
| Layers.ActivationLayer.Save | include/layers.hpp:58 | save writes nothing |
| Layers.ActivationLayer.Load | include/layers.hpp:59 | load reads nothing and changes nothing |
| Layers.Layer.Forward | include/layers.hpp:14 | the virtual forward call dispatches to the layer's own kind (`LayerForward`) |
| Layers.Layer.Backward | include/layers.hpp:17 | the virtual backward call dispatches to the layer's own kind (`LayerBackward`) |
| Layers.Layer.Update | include/layers.hpp:20 | the virtual update call dispatches to the layer's own kind (`LayerUpdate`) |
| Layers.Layer.Save | include/layers.hpp:23 | the virtual save call writes the layer's record (`LayerRecord`) |
| Layers.Layer.Load | include/layers.hpp:24 | the virtual load call dispatches to the layer's own kind (`LayerLoad`) |
| Layers.DoubledMean | src/layers.cpp:64-71 | the average of a doubled sum over a doubled batch is the average of the sum |
| Layers.DuplicatedBatchWeightGradients | src/layers.cpp:53-68 | the weight gradients are batch averages: a batch stacked on itself gives the same weight gradients |
| Layers.DuplicatedBatchBiasGradients | src/layers.cpp:53-71 | the same for the bias gradients |
| Layers.DuplicatedBatchInputGradients | src/layers.cpp:50-58 | the input gradients are per example: a batch stacked on itself gives its input gradients twice |
| Layers.ReluIdempotent | src/layers.cpp:90-95 | applying ReLU twice is applying it once |
| Layers.ReluMaskFromOutput | src/layers.cpp:117-122 | masking with the ReLU output is masking with its input: both are positive at the same places |
| Layers.SoftmaxPrefixSum | src/layers.cpp:99-105 | the first `n` softmax entries sum to the first `n` shifted exponentials over their total |
| Layers.SoftmaxRowSumsToOne | src/layers.cpp:96-106 | over exact reals, the entries of a softmax row sum to one |
| Layers.Restored | src/layers.cpp:153-171 | restoring parameters from a saved layer keeps the target's cached input |
| Layers.LayerRoundTrip | src/layers.cpp:136-171 | loading what a layer saved into a layer of the same shape restores its weights and biases exactly and reads no further than the record |
| Network.ForwardFrom | src/neural_network.cpp:18-24 | the forward pass from layer `i` gives a new state for each of layers `i` onwards |
| Network.BackwardFrom | src/neural_network.cpp:27-32 | the backward pass down from layer `i` gives a new state for each of layers below `i` |
| Network.Outcome | src/neural_network.cpp:27-32 | the backward pass returns only whether it failed, and with which error; the first layer's gradient is discarded |
| Network.UpdateAll | src/neural_network.cpp:35-39 | every layer is updated once, and each layer's new state depends only on its old state |
| Network.Records | src/neural_network.cpp:47-49 | layer `j`'s part of the file is layer `j`'s record |
| Network.LoadFrom | src/neural_network.cpp:59-61 | loading from layer `i` gives a new state for each of layers `i` onwards |
| Network.SaveAllSnoc | src/neural_network.cpp:47-49 | saving one more layer appends that layer's record |
| Network.NeuralNetwork.constructor | include/neural_network.hpp:15 | a new network has no layers |
| Network.NeuralNetwork.AddLayer | src/neural_network.cpp:13-15 | the layer is appended after the others, which keep their order |
| Network.NeuralNetwork.ForwardLayer | src/neural_network.cpp:21 | one layer's forward call changes that layer only |
| Network.NeuralNetwork.BackwardLayer | src/neural_network.cpp:30 | one layer's backward call changes that layer only |
| Network.NeuralNetwork.LoadLayer | src/neural_network.cpp:60 | one layer's load call changes that layer only |
| Network.NeuralNetwork.Forward | src/neural_network.cpp:18-24 | the layers run first to last, each on the previous layer's output; the new layer states and the result are `ForwardFrom`, which stops at the first error |
| Network.NeuralNetwork.Backward | src/neural_network.cpp:27-32 | the layers run last to first, each on the gradient the next layer returned; the new layer states are `BackwardFrom` |
| Network.NeuralNetwork.Update | src/neural_network.cpp:35-39 | every layer takes its own update step (`UpdateAll`) |
| Network.NeuralNetwork.Save | src/neural_network.cpp:42-51 | the file is the layers' records one after another, in order (`SaveAll`) |
| Network.NeuralNetwork.Load | src/neural_network.cpp:54-63 | the layers read their records one after another, in order (`LoadFrom`) |
| Network.EmptyNetworkForward | src/neural_network.cpp:18-24 | a network with no layers returns its input unchanged |
| Network.ForwardAppend | src/neural_network.cpp:18-24 | the forward pass is a fold: running `a + b` is running `a` and then running `b` on its output, unless `a` fails |
| Network.ForwardShift | src/neural_network.cpp:20-22 | the forward pass from a layer only looks at that layer and the ones after it |
| Network.BackwardPrefix | src/neural_network.cpp:29-31 | the backward pass down from a layer only looks at that layer and the ones before it |
| Network.BackwardAppend | src/neural_network.cpp:29-31 | the backward pass over `a + b` runs `b` first and then `a` on the gradient `b` returned, unless `b` fails |
| Network.UpdatePreservesShape | src/neural_network.cpp:35-39 | an update keeps every layer's kind and shape |
| Network.RecordsAppend | src/neural_network.cpp:47-49 | the records of `a + b` are the records of `a` followed by those of `b` |
| Network.SaveAllAppend | src/neural_network.cpp:47-49 | the file of `a + b` is the file of `a` followed by the file of `b` |
| Network.ActivationSavesNothing | src/neural_network.cpp:47-49 | an activation layer adds nothing to the file |
| Network.RestoredAll | src/neural_network.cpp:59-61 | each layer takes its parameters from the saved layer at the same position |
| Network.SavedRecordLoads | src/neural_network.cpp:59-61 | layer `i` of a network of the same architecture reads exactly the record saved for layer `i` |
| Network.LoadFromSaved | src/neural_network.cpp:59-61 | loading from layer `i` onwards restores every later layer's parameters and reads no further than the saved file |
| Network.NetworkRoundTrip | src/neural_network.cpp:42-63 | loading a saved network into one with the same layers and Dense shapes restores every Dense layer's weights and biases and leaves the rest of the source unread |
| Network.SelfRoundTrip | src/neural_network.cpp:42-63 | loading a network's own file back changes nothing |
| Utils.Correct | src/utils.cpp:11-23 | the count of agreeing rows is at most the number of rows |
| Utils.CalculateBatchAccuracy | src/utils.cpp:7-26 | the result is the number of rows whose predicted class is the true class, between 0 and the number of rows |
| Utils.CorrectIsCount | src/utils.cpp:20-22 | every row is counted exactly when every row's classes agree; none is counted exactly when no row's classes agree |
| Utils.PerfectPredictions | src/utils.cpp:13-22 | predicting the targets themselves scores every row |
| Utils.CorrectAppend | src/utils.cpp:11-23 | the count over two stacked batches is the sum of their counts |
| Utils.AccuracyExample | src/utils.cpp:7-26 | predictions `[[0.1,0.9],[0.8,0.2]]` against targets `[[0,1],[1,0]]` give 2 |
| Utils.TieExample | src/utils.cpp:13-18 | a tie is broken toward the lower index |
| Utils.Minimum | src/utils.cpp:79 | the value `std::min_element` finds: an entry, and no entry is smaller |
| Utils.Maximum | src/utils.cpp:80 | the value `std::max_element` finds: an entry, and no entry is larger |
| Utils.Normalized | src/utils.cpp:81-84 | scaling keeps the length |
| Utils.Normalize | src/utils.cpp:78-86 | the loop fills the fresh vector with `(v[i] - min) / (max - min)` |
| Utils.NormalizedInUnitInterval | src/utils.cpp:83 | every scaled value lies in [0, 1] |
| Utils.NormalizedExtremes | src/utils.cpp:83 | the minimum scales to 0 and the maximum to 1 |
| Utils.NormalizedOrder | src/utils.cpp:83 | scaling keeps the order of entries, in both directions |
| MnistLoader.ReverseInt | src/mnist_loader.cpp:8-15 | the bytes of the result are the bytes of the argument in reverse order |
| MnistLoader.ReverseIntInvolution | src/mnist_loader.cpp:8-15 | swapping twice restores the 32-bit pattern |
| MnistLoader.ByteAt | src/mnist_loader.cpp:44-45 | a byte read inside the file is that byte; a read past the end leaves 0 |
| MnistLoader.ToInt32 | src/mnist_loader.cpp:14 | a 32-bit pattern read as an `int` is in the 32-bit signed range, negative exactly when the top bit is set |
| MnistLoader.BigEndianValue | src/mnist_loader.cpp:29-30 | four header bytes read most significant first give a 32-bit value |
| MnistLoader.SwappedWordIsHeaderField | src/mnist_loader.cpp:29-39 | reading a field on a little-endian host and swapping its bytes gives the big-endian field value |
| MnistLoader.SwappedWord | src/mnist_loader.cpp:8-15 | swapping a little-endian word gives the big-endian one |
| MnistLoader.FieldRoundTrip | src/mnist_loader.cpp:29-39 | a field written big-endian with a value below 2^31 reads back as that value |
| MnistLoader.PixelValue | src/mnist_loader.cpp:46 | a pixel byte as a float lies in [0, 255] |
| MnistLoader.DecodeImages | src/mnist_loader.cpp:41-48 | decoding fails with `LengthError` exactly when the image count or the pixel count is negative; otherwise it gives `num_images` rows of `num_rows * num_cols` pixels |
| MnistLoader.ImagePixels | src/mnist_loader.cpp:42-48 | the pixel matrix has `n` rows of `p` entries |
| MnistLoader.ReadImage | src/mnist_loader.cpp:43-47 | pixel `j` of an image is the byte at the image's offset plus `j`, or 0 past the end |
| MnistLoader.LoadImages | src/mnist_loader.cpp:18-52 | the read loops give `DecodeImages` |
| MnistLoader.DecodeLabels | src/mnist_loader.cpp:70-75 | decoding fails with `LengthError` exactly when the label count is negative; otherwise it gives that many labels, each in [0, 255] |
| MnistLoader.LoadLabels | src/mnist_loader.cpp:55-79 | the read loop gives `DecodeLabels` |
| MnistLoader.MagicIgnored | src/mnist_loader.cpp:29-30 | the magic number is never checked: files that differ only in it decode alike |
| MnistLoader.DecodeImagesOf | src/mnist_loader.cpp:41-48 | with a well-formed header, pixel `[i][j]` is the byte at offset `16 + i * num_rows * num_cols + j` |
| MnistLoader.PixelsRoundTrip | src/mnist_loader.cpp:42-48 | the pixels after a 16-byte header decode to the images they were written from |
| MnistLoader.HeaderFields | src/mnist_loader.cpp:32-39 | the three count fields of a written header read back as the counts |
| MnistLoader.ImagesRoundTrip | src/mnist_loader.cpp:41-48 | an image file written from images decodes to those images, whatever the magic number and whatever follows |
| MnistLoader.LabelsRoundTrip | src/mnist_loader.cpp:64-75 | a label file written from labels decodes to those labels, label `i` being the byte at offset `8 + i` |
| MnistLoader.Scaled | src/mnist_loader.cpp:83-84 | scaling keeps the shape of the images |
| MnistLoader.NormalizeImage | src/mnist_loader.cpp:84-86 | every pixel of an image is divided by 255 |
| MnistLoader.NormalizeImages | src/mnist_loader.cpp:82-88 | the loops compute `Scaled`: every pixel divided by 255, shape kept |
| MnistLoader.ScaledInUnitInterval | src/mnist_loader.cpp:85 | pixels in [0, 255] end in [0, 1] |
| MnistLoader.ScaledInverse | src/mnist_loader.cpp:85 | scaling loses nothing: a scaled pixel times 255 is the pixel |
| MnistLoader.DecodedScaledInUnitInterval | src/mnist_loader.cpp:82-88 | decoded and scaled images lie in [0, 1] |
| MnistLoader.OneHot | src/mnist_loader.cpp:92 | there is one row per label with `num_classes` entries |
| MnistLoader.OneHotEncode | src/mnist_loader.cpp:91-97 | row `i` is 1 at `labels[i]` and 0 elsewhere; a negative class count is the `LengthError` of the vector constructor |
| MnistLoader.OneHotArgMax | src/mnist_loader.cpp:94 | the class read back from a one-hot row is its label |
| MnistLoader.OneHotEntries | src/mnist_loader.cpp:92-94 | entry `k` of row `i` is 1 exactly when `k` is the label and 0 exactly when it is not |
| MnistLoader.AccuracyAgainstLabels | src/mnist_loader.cpp:91-97 | the batch accuracy against one-hot targets counts the rows whose predicted class is the label |

## Left out

- Floating point. Every `float` is an exact `real`, so rounding, overflow to infinity and NaN are not modelled.
- `exp` and `log` are function parameters. Softmax forward and the loss hold for any `exp` that is positive everywhere and for any `log`.
- `Utils::softmax` (src/utils.cpp:89-105). It is not used by the layers, which have their own shifted softmax (modelled), and it is made only of `exp` and a division.
- Randomness. `DenseLayer`'s initial weights are a constructor parameter: any matrix of the right shape with entries in [-0.1, 0.1]. `Utils::randomFloat`, `initializeRandomMatrix` and `initializeRandomVector` are random value generators and are not modelled.
- Console printing (`Utils::printVector`, `Utils::printMatrix`) writes nothing the rest of the program reads.
- File open, close and the open-failure `runtime_error`s. A model file is a sequence of tokens and an IDX file a sequence of bytes.
- The byte layout of the model file. A Dense record is the tokens `[in, out, w row-major..., b...]`, not platform-width `size_t` bytes and float bit patterns.
- Layers.DenseLayer.Load: requires the source to start with a record of the layer's own shape, so every load of a record of another shape is excluded. In the C++ (src/layers.cpp:161-170) such a load resizes the row list and the biases to the record's shape, truncating or padding them, but the rows it keeps keep their old width. A record with a different output size therefore leaves the kept rows at the wrong width, a corrupted state. A record with the same output size and a different input size loads cleanly and gives the layer the record's shape. So does any record loaded into a layer with no weight rows. The precondition excludes these well-defined cases too.
- Undefined behaviour becomes preconditions:
  - `weights[0]` of an empty weight matrix (src/layers.cpp:45, 139) is excluded by `|weights| > 0`;
  - a backward pass on an empty batch, which divides by zero (src/layers.cpp:66, 70), is excluded by `|gradient| > 0`;
  - a backward pass whose gradient or cached input is too narrow or too short (src/layers.cpp:57, 118-120) is excluded by `CanBackward`;
  - indexing past the targets in the loss, the gradient and the accuracy is excluded by `Covers` and `|targets| >= |predictions|`;
  - softmax of an empty row, which dereferences the end iterator of `std::max_element` (src/layers.cpp:98), is excluded by `NonEmptyRows`;
  - the loss of an empty batch, which divides 0 by 0 (src/loss.cpp:14), is excluded by `|predictions| > 0` in `CrossEntropy` and `CalculateLoss`;
  - an update before any backward pass, which indexes the empty gradient vectors (src/optimizer.cpp:7, 18), is excluded by `CanUpdate` and by the requires of `DenseLayer.Update`;
  - an out-of-range label in `one_hot_encode` (src/mnist_loader.cpp:94) is excluded by `LabelsInRange`;
  - the C++ `int` overflow of `num_rows * num_cols` (src/mnist_loader.cpp:41) is excluded by `PixelCountFits`.
- Utils.Normalize: requires the minimum to be strictly below the maximum. On a constant or empty vector the C++ divides by zero or dereferences the end iterator.
- The signed shift overflow in `reverse_int` (src/mnist_loader.cpp:14). The swap is modelled on `bv32`, and the result is read as a two's-complement `int`.
- Host byte order. The loaders read each header field on a little-endian host; `SwappedWordIsHeaderField` proves the swap then gives the big-endian value, and the decoders use that value.
- A short header field read. After a read that hits the end of the file, the model treats the missing bytes as zero.
- The `std::bad_alloc` a huge vector size can raise is not modelled. Only the negative-size `length_error` is.
- By-reference parameters. The C++ optimizer updates and `normalize_images` change their argument in place. Here they return the new value: `UpdateMatrix`, `UpdateVector`, `NormalizeImages`.
- Network.NeuralNetwork.AddLayer: requires the new layer to be no layer already added. The C++ accepts the same pointer twice, and the aliasing that follows is not modelled.
- `NeuralNetwork::~NeuralNetwork` (src/neural_network.cpp:6-10) only frees memory.
- `main.cpp` is driver code and is not part of this model: thread setup, command-line handling, dataset loading, the training loop and logging.

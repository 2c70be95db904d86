# PerceptronClassifier toolkit core in Dafny

This project models the in-memory core of a bag-of-words text-classification
toolkit written in Java. It has four parts:

- **Numeric vectors.**
  - The abstract `FeatureVector` builds its default in-place arithmetic
    (`*InPlace`, `dot`, `sum`, `product`, `zero`, `nonZeroValues`,
    `nonZeroIndices`) on `get`/`set`. Here it is a class over an
    `array<real>` of coordinates.
  - `CompressedFeatureVector` stores only an index-to-value map and a length.
  - `SparseFeatureVector` is a dense array whose `get`/`set` are stubs.
  - `WeightVector` is a dense array plus a bias.
  - `FeatureMatrix` is an array of equal-length rows with broadcast in-place
    operations.
- **Counting and vocabulary.**
  - `Counter` counts occurrences.
  - `DocumentCounter` counts, per key, the documents that contain it.
  - `BOWExtractor` numbers the vocabulary and builds presence vectors.
  - `TfIdfExtractor` weighs each token of a document by tf * idf.
  - The older root `Counter` never stores a key.
- **Evaluation.**
  - `ConfusionMatrix` counts tp/fp/tn/fn for one label and derives precision,
    recall and F-score.
  - `Evaluator` keeps one matrix per label and computes accuracy, and macro
    and micro averages.
  - `Scores` holds the three numbers.

Modelling choices:

- Java `double` is `real`.
- `Math.log` and `Math.pow` are function parameters (`log`, `pow`) about
  which nothing is assumed, except where a lemma asks for a `log` that is
  increasing.
- An exception is an `Err`/`Fail` value of the datatypes in `outcomes.dfy`.
- A constructor that can throw becomes a static method returning a `Result`.
- A `HashMap`/`HashSet` is a `map`/`set`. A loop over one picks its elements
  in an order left open, so every contract holds for every iteration order.
- The order-independence of the averages is proved, not assumed. `MapSum` and
  `CountsTotal` sum a map's values. The lemmas `ScoreSumOrderIndependent` and
  `CountsSumOrderIndependent` show that summing along any enumeration of the
  labels gives that sum.

Where the code and its documentation disagree, the model follows the code:

- `precision` is 0 whenever `fp == 0`, so a perfect classifier scores 0.
  `recall` is 0 whenever `fn == 0`. The lemma
  `ExampleWithoutFalsePositives` shows a concrete case. The documented
  scores are defined beside them (`IntendedPrecision`, `IntendedRecall`,
  `IntendedFScore`), and "## Findings" states exactly where the two differ.
- `CompressedFeatureVector.set` on an index with no entry fails.
  `CompressedFeatureVector.clear` does nothing.
- `FeatureVector.sum` accumulates into an `int`, truncating at every step
  and saturating at `Integer.MAX_VALUE` and `Integer.MIN_VALUE`.
  `product` starts from 0.0 and is always 0.
- `FeatureVector.subtractInPlace(int)` changes nothing.
- `FeatureMatrix.get(size())` passes the range check and then fails on the
  array access.
- `TfIdfExtractor.vectorize` fails on a token outside the training
  vocabulary.
- `SparseFeatureVector.get` always reads 0, so its arithmetic yields zeros.

## Model

| member | source | states |
|---|---|---|
| Sums.Densify | src/Vectors/CompressedFeatureVector.java:153-159 | the dense view of an index map has the given length; index i holds the stored value, or 0.0 when nothing is stored |
| Sums.NonZeroEntries | src/Vectors/CompressedFeatureVector.java:25-47 | the keys are exactly the indices of non-zero coordinates, each mapped to its coordinate |
| Sums.DotCommutes | src/Vectors/FeatureVector.java:39-45 | the inner product is symmetric in its two vectors |
| Sums.MapSumIsDenseSum | src/Vectors/CompressedFeatureVector.java:125-132 | with keys in range, the sum of the stored values equals the sum of all coordinates |
| Sums.SparseDotIsDenseDot | src/Vectors/CompressedFeatureVector.java:49-58 | summing value * other[i] over the stored entries gives the dense inner product |
| FeatureVectors.TruncateToInt | src/Vectors/FeatureVector.java:172-177 | Java's (int) cast: the result is always within the 32-bit int range, is Integer.MAX_VALUE or MIN_VALUE for an x at or past that bound, and otherwise truncates toward zero, within 1 of x on the side of 0 |
| FeatureVectors.TruncatedSumIsIntegral | src/Vectors/FeatureVector.java:172-177 | the int-accumulated sum is always a whole number |
| FeatureVectors.TruncatedSumOfIntegers | src/Vectors/FeatureVector.java:172-177 | on whole-number coordinates whose running sums all stay within int range, the truncating sum is the exact sum |
| FeatureVectors.TruncatedSumSaturates | src/Vectors/FeatureVector.java:172-177 | on [Integer.MAX_VALUE, 1] the accumulator stays at Integer.MAX_VALUE, while the exact sum is one more |
| FeatureVectors.TruncatedSumLosesFractions | src/Vectors/FeatureVector.java:172-177 | on [0.5, 0.5] the truncating sum is 0, while the exact sum is 1 |
| FeatureVectors.NonZeroIndicesExact | src/Vectors/FeatureVector.java:210-218 | the listed indices are exactly those of non-zero coordinates, in strictly increasing order |
| FeatureVectors.NonZeroValuesMatchIndices | src/Vectors/FeatureVector.java:198-218 | the non-zero values list the coordinates at the non-zero indices, position by position |
| FeatureVectors.PlusThenMinus | src/Vectors/FeatureVector.java:53-90 | subtracting a vector after adding it restores the coordinates |
| FeatureVectors.TimesThenQuotient | src/Vectors/FeatureVector.java:114-140 | dividing by a non-zero scalar after multiplying by it restores the coordinates |
| FeatureVectors.FeatureVector.Set | src/Vectors/FeatureVector.java:232 | writes one coordinate and leaves the others alone |
| FeatureVectors.FeatureVector.CheckVectorSize | src/Vectors/FeatureVector.java:47-51 | passes exactly when the lengths are equal, and fails with a length mismatch otherwise |
| FeatureVectors.FeatureVector.Dot | src/Vectors/FeatureVector.java:39-45 | on unequal lengths a length-mismatch error; otherwise the inner product of the coordinates |
| FeatureVectors.FeatureVector.AdditionInPlace | src/Vectors/FeatureVector.java:53-57 | on equal lengths coordinate i becomes old[i] + other[i]; on a mismatch it fails and nothing changes |
| FeatureVectors.FeatureVector.AdditionInPlaceInt | src/Vectors/FeatureVector.java:59-61 | adds the scalar, widened to real, to every coordinate |
| FeatureVectors.FeatureVector.AdditionInPlaceScalar | src/Vectors/FeatureVector.java:63-66 | adds the scalar to every coordinate |
| FeatureVectors.FeatureVector.SubtractInPlace | src/Vectors/FeatureVector.java:86-90 | on equal lengths coordinate i becomes old[i] - other[i]; on a mismatch it fails and nothing changes |
| FeatureVectors.FeatureVector.SubtractInPlaceInt | src/Vectors/FeatureVector.java:92-94 | the receiver keeps every coordinate, because the result of the non-mutating subtract is dropped |
| FeatureVectors.FeatureVector.SubtractInPlaceScalar | src/Vectors/FeatureVector.java:96-98 | subtracts the scalar from every coordinate, by adding its negation |
| FeatureVectors.FeatureVector.MultiplyInPlace | src/Vectors/FeatureVector.java:108-112 | on equal lengths coordinate i becomes old[i] * other[i]; on a mismatch it fails and nothing changes |
| FeatureVectors.FeatureVector.MultiplyInPlaceScalar | src/Vectors/FeatureVector.java:114-117 | multiplies every coordinate by the scalar |
| FeatureVectors.FeatureVector.DivideInPlace | src/Vectors/FeatureVector.java:127-131 | on equal lengths coordinate i becomes old[i] / other[i]; on a mismatch it fails and nothing changes |
| FeatureVectors.FeatureVector.DivideInPlaceInt | src/Vectors/FeatureVector.java:133-135 | divides every coordinate by the non-zero scalar, widened to real |
| FeatureVectors.FeatureVector.DivideInPlaceScalar | src/Vectors/FeatureVector.java:137-140 | divides every coordinate by the non-zero scalar |
| FeatureVectors.FeatureVector.PowInPlace | src/Vectors/FeatureVector.java:150-153 | coordinate i becomes pow(old[i], other[i]), with no length check |
| FeatureVectors.FeatureVector.PowInPlaceInt | src/Vectors/FeatureVector.java:159-161 | raises every coordinate to the scalar, widened to real |
| FeatureVectors.FeatureVector.PowInPlaceScalar | src/Vectors/FeatureVector.java:163-166 | raises every coordinate to the scalar |
| FeatureVectors.FeatureVector.Sum | src/Vectors/FeatureVector.java:172-177 | the int-truncating, saturating running sum of the coordinates, a whole number within int range |
| FeatureVectors.FeatureVector.Product | src/Vectors/FeatureVector.java:183-188 | always 0, because the running product starts from 0.0 |
| FeatureVectors.FeatureVector.Zero | src/Vectors/FeatureVector.java:193-196 | every coordinate is 0 and the length is kept |
| FeatureVectors.FeatureVector.Clear | src/Vectors/FeatureVector.java:265-267 | every coordinate is 0 and the length is kept |
| FeatureVectors.FeatureVector.NonZeroValues | src/Vectors/FeatureVector.java:198-204 | the non-zero coordinates in index order; each value is non-zero |
| FeatureVectors.FeatureVector.NonZeroIndices | src/Vectors/FeatureVector.java:210-218 | exactly the indices of non-zero coordinates, strictly increasing |
| Vectors.CompressRoundTrip | src/Vectors/CompressedFeatureVector.java:25-47 | compressing a dense vector and reading it back with get gives the same vector; no stored value is 0 |
| Vectors.DividedScaled | src/Vectors/CompressedFeatureVector.java:89-113 | dividing the stored values by the non-zero scalar just multiplied restores the map |
| Vectors.StoredDotIsDenseDot | src/Vectors/CompressedFeatureVector.java:49-58 | with keys in range, the sum of stored value * other.get(i) is the dense inner product |
| Vectors.CompressedFeatureVector.OfLength | src/Vectors/CompressedFeatureVector.java:16-18 | an empty map of the given length: every coordinate reads 0 |
| Vectors.CompressedFeatureVector.WithMap | src/Vectors/CompressedFeatureVector.java:20-23 | stores the given map and length unchanged |
| Vectors.CompressedFeatureVector.FromArray | src/Vectors/CompressedFeatureVector.java:25-35 | keeps the array length, stores exactly its non-zero entries, and reads back as the array |
| Vectors.CompressedFeatureVector.FromList | src/Vectors/CompressedFeatureVector.java:37-47 | keeps the list length, stores exactly its non-zero entries, and reads back as the list |
| Vectors.CompressedFeatureVector.Size | src/Vectors/CompressedFeatureVector.java:143-146 | the length of the dense view |
| Vectors.CompressedFeatureVector.Get | src/Vectors/CompressedFeatureVector.java:153-159 | the stored value, or 0.0; a non-zero result means the index is stored, and in range it is the dense coordinate |
| Vectors.CompressedFeatureVector.Set | src/Vectors/CompressedFeatureVector.java:161-167 | overwrites a stored index; an index with no entry fails and leaves the map as it was; the length is kept |
| Vectors.CompressedFeatureVector.StoredProductsSumToDot | src/Vectors/CompressedFeatureVector.java:49-58 | on equal lengths with keys in range, the sparse dot product equals the dense inner product |
| Vectors.CompressedFeatureVector.Dot | src/Vectors/CompressedFeatureVector.java:49-58 | the sum of value * other.get(index) over this vector's stored entries, in any iteration order |
| Vectors.CompressedFeatureVector.Addition | src/Vectors/CompressedFeatureVector.java:60-66 | a new vector of the same length storing every index 0..size-1, zeros included, with get(i) + other.get(i) |
| Vectors.CompressedFeatureVector.Multiply | src/Vectors/CompressedFeatureVector.java:78-87 | a new vector with this key set and length; every coordinate reads get(i) * other.get(i) |
| Vectors.CompressedFeatureVector.DotSparse | src/Vectors/CompressedFeatureVector.java:49-58 | with a dense operand, whose get reads 0, the dot product is 0 |
| Vectors.CompressedFeatureVector.AdditionSparse | src/Vectors/CompressedFeatureVector.java:60-66 | with a dense operand, a new vector storing every index 0..size-1 with get(i) + other.get(i), which reads back as this vector |
| Vectors.CompressedFeatureVector.MultiplySparse | src/Vectors/CompressedFeatureVector.java:78-87 | with a dense operand, a new vector with this key set and length, each stored value multiplied by other.get(i), so every coordinate reads 0 |
| Vectors.CompressedFeatureVector.MultiplyScalar | src/Vectors/CompressedFeatureVector.java:89-96 | a new vector with the same length and key set; every coordinate reads get(i) * scalar |
| Vectors.CompressedFeatureVector.DivideScalar | src/Vectors/CompressedFeatureVector.java:103-113 | fails exactly for a 0 scalar; otherwise a new vector with the same length and every stored value divided |
| Vectors.CompressedFeatureVector.Sum | src/Vectors/CompressedFeatureVector.java:125-132 | the sum of the stored values; with keys in range, the sum of all coordinates |
| Vectors.CompressedFeatureVector.Product | src/Vectors/CompressedFeatureVector.java:134-141 | always 0, because the running product starts from 0.0 |
| Vectors.CompressedFeatureVector.GetVector | src/Vectors/CompressedFeatureVector.java:211-219 | a fresh array of length size() whose element i is get(i), as the iterator yields it |
| Vectors.CompressedFeatureVector.Sparsify | src/Vectors/CompressedFeatureVector.java:169-176 | a new dense vector over a fresh copy of the coordinates |
| Vectors.CompressedFeatureVector.Update | src/Vectors/CompressedFeatureVector.java:181-184 | takes over the other vector's entries and length, so right after the call both read the same coordinates |
| Vectors.CompressedFeatureVector.NonZeroIndices | src/Vectors/CompressedFeatureVector.java:225-233 | a fresh array listing every stored index exactly once |
| Vectors.CompressedFeatureVector.Zero | src/Vectors/CompressedFeatureVector.java:235-237 | the map is emptied and the length kept, so every coordinate reads 0 |
| Vectors.CompressedFeatureVector.Clear | src/Vectors/CompressedFeatureVector.java:260-263 | changes nothing |
| Vectors.SparseFeatureVector.OfLength | src/Vectors/SparseFeatureVector.java:13-15 | a fresh all-zero array of the given length |
| Vectors.SparseFeatureVector.FromList | src/Vectors/SparseFeatureVector.java:17-21 | a fresh array holding the list element by element |
| Vectors.SparseFeatureVector.FromArray | src/Vectors/SparseFeatureVector.java:23-25 | keeps the caller's array itself, so the two share storage |
| Vectors.SparseFeatureVector.GetLength | src/Vectors/SparseFeatureVector.java:140-143 | the length of the backing array |
| Vectors.SparseFeatureVector.Get | src/Vectors/SparseFeatureVector.java:145-148 | the stub reads 0 at every index |
| Vectors.SparseFeatureVector.Set | src/Vectors/SparseFeatureVector.java:150-153 | the stub changes neither the array nor its contents |
| Vectors.SparseFeatureVector.AddSparse | src/Vectors/SparseFeatureVector.java:32-38 | a fresh vector of this length with get(i) + other.get(i), which is all zeros |
| Vectors.SparseFeatureVector.AddInt | src/Vectors/SparseFeatureVector.java:40-43 | the same as adding the scalar widened to real |
| Vectors.SparseFeatureVector.AddScalar | src/Vectors/SparseFeatureVector.java:45-51 | a fresh vector of this length with get(i) + scalar, which is the scalar everywhere |
| Vectors.SparseFeatureVector.Subtract | src/Vectors/SparseFeatureVector.java:53-63 | a fresh vector of this length with get(i) - other.get(i), with no length check |
| Vectors.SparseFeatureVector.SubtractSparse | src/Vectors/SparseFeatureVector.java:53-68 | a fresh vector of this length with get(i) - other.get(i) |
| Vectors.SparseFeatureVector.SubtractScalar | src/Vectors/SparseFeatureVector.java:70-78 | the result of adding the negated scalar: -scalar everywhere |
| Vectors.SparseFeatureVector.Compressed | src/Vectors/SparseFeatureVector.java:160-168 | a compressed vector of the same length storing exactly the indices whose get is non-zero, which are none |
| Vectors.SparseFeatureVector.UpdateFromSparse | src/Vectors/SparseFeatureVector.java:175-182 | takes over the other vector's own array |
| Vectors.SparseFeatureVector.UpdateFromCompressed | src/Vectors/SparseFeatureVector.java:175-178 | a fresh array holding the compressed vector's coordinates |
| Vectors.WeightVector.OfLength | src/Vectors/WeightVector.java:9-11 | an all-zero array of the given length and bias 0 |
| Vectors.WeightVector.OfLengthWithBias | src/Vectors/WeightVector.java:13-16 | an all-zero array of the given length and the given bias |
| Vectors.WeightVector.FromArrayWithBias | src/Vectors/WeightVector.java:18-21 | wraps the caller's array unchanged, with the given bias |
| Vectors.WeightVector.FromArray | src/Vectors/WeightVector.java:23-25 | wraps the caller's array unchanged, with bias 0 |
| Vectors.WeightVector.FromList | src/Vectors/WeightVector.java:27-29 | a fresh copy of the list, with bias 0 |
| Vectors.WeightVector.FromListWithBias | src/Vectors/WeightVector.java:31-34 | a fresh copy of the list, with the given bias |
| FeatureMatrices.EnsureLengthOutcome | src/Vectors/FeatureMatrix.java:88-94 | passes exactly for a non-empty array of rows all as long as the first; an empty array fails on reading row 0; otherwise a shape mismatch |
| FeatureMatrices.EnsureLength | src/Vectors/FeatureMatrix.java:88-94 | the checking loop gives exactly that outcome |
| FeatureMatrices.FeatureMatrix.FromCollection | src/Vectors/FeatureMatrix.java:10-15 | fails exactly when the length check fails; otherwise a fresh array holding the rows, shape [row length, row count] |
| FeatureMatrices.FeatureMatrix.FromArray | src/Vectors/FeatureMatrix.java:17-21 | fails exactly when the length check fails; otherwise keeps the caller's array, shape [row length, row count] |
| FeatureMatrices.FeatureMatrix.RandomInitialize | src/Vectors/FeatureMatrix.java:130-159 | a negative length fails; a length of 0 fails in the length check; otherwise a matrix of the drawn rows with shape [nFeatures, length] |
| FeatureMatrices.FeatureMatrix.Size | src/Vectors/FeatureMatrix.java:103-106 | the number of rows |
| FeatureMatrices.FeatureMatrix.GetShape | src/Vectors/FeatureMatrix.java:114-116 | the first component is every row's length, the second the number of rows |
| FeatureMatrices.FeatureMatrix.Get | src/Vectors/FeatureMatrix.java:108-112 | succeeds exactly for 0 <= i < size() with row i; i < 0 or i > size() fail the check; i == size() fails on the array access |
| FeatureMatrices.FeatureMatrix.AdditionScalar | src/Vectors/FeatureMatrix.java:24-28 | every row has the scalar added to each coordinate |
| FeatureMatrices.FeatureMatrix.AdditionVector | src/Vectors/FeatureMatrix.java:30-34 | fails, changing nothing, when the vector's length differs from the rows'; otherwise every row becomes row + vector |
| FeatureMatrices.FeatureMatrix.SubtractScalar | src/Vectors/FeatureMatrix.java:37-41 | every row has the scalar subtracted from each coordinate |
| FeatureMatrices.FeatureMatrix.SubtractVector | src/Vectors/FeatureMatrix.java:43-47 | fails, changing nothing, on a length mismatch; otherwise every row becomes row - vector |
| FeatureMatrices.FeatureMatrix.MultiplyScalar | src/Vectors/FeatureMatrix.java:50-54 | every row has each coordinate multiplied by the scalar |
| FeatureMatrices.FeatureMatrix.MultiplyVector | src/Vectors/FeatureMatrix.java:56-60 | fails, changing nothing, on a length mismatch; otherwise every row is multiplied coordinate-wise by the vector |
| FeatureMatrices.FeatureMatrix.DivideScalar | src/Vectors/FeatureMatrix.java:63-67 | every row has each coordinate divided by the non-zero scalar |
| FeatureMatrices.FeatureMatrix.DivideVector | src/Vectors/FeatureMatrix.java:69-73 | fails, changing nothing, on a length mismatch; otherwise every row is divided coordinate-wise by the vector |
| FeatureMatrices.FeatureMatrix.PowScalar | src/Vectors/FeatureMatrix.java:76-80 | every coordinate of every row is raised to the scalar |
| FeatureMatrices.FeatureMatrix.PowVector | src/Vectors/FeatureMatrix.java:82-86 | every coordinate of every row is raised to the vector's coordinate at that index |
| Counting.DocFreqBounds | src/FeatureExtraction/Counter/DocumentCounter.java:27-46 | a document frequency is at most the term frequency and the number of documents, and positive exactly when some document holds the key |
| Counting.TermFreqPositive | src/FeatureExtraction/Counter/Counter.java:52-56 | a key is counted across documents exactly when it occurs in one of them |
| Counting.Counter.constructor | src/FeatureExtraction/Counter/Counter.java:11-17 | an empty counter |
| Counting.Counter.WithCapacity | src/FeatureExtraction/Counter/Counter.java:15-17 | a negative capacity fails; otherwise an empty counter |
| Counting.Counter.FromElements | src/FeatureExtraction/Counter/Counter.java:19-27 | the count of each key is its number of occurrences, and the vocabulary is the set of elements |
| Counting.Counter.FromDocuments | src/FeatureExtraction/Counter/Counter.java:29-32 | the count of each key is its number of occurrences over all documents, and the vocabulary is every token |
| Counting.Counter.Get | src/FeatureExtraction/Counter/Counter.java:58-62 | never negative, and 0 exactly for a key never added |
| Counting.Counter.Vocab | src/FeatureExtraction/Counter/Counter.java:69-71 | exactly the keys with a non-zero count |
| Counting.Counter.Size | src/FeatureExtraction/Counter/Counter.java:73-75 | the number of distinct keys counted |
| Counting.Counter.Add | src/FeatureExtraction/Counter/Counter.java:34-39 | raises the element's count by exactly 1, leaves every other count alone, and keeps every stored count at least 1 |
| Counting.Counter.Update | src/FeatureExtraction/Counter/Counter.java:41-50 | each count grows by the key's occurrences in the elements |
| Counting.Counter.UpdateAll | src/FeatureExtraction/Counter/Counter.java:52-56 | each count grows by the key's occurrences over all the documents |
| Counting.DocumentCounter.constructor | src/FeatureExtraction/Counter/DocumentCounter.java:11-13 | an empty counter |
| Counting.DocumentCounter.FromArray | src/FeatureExtraction/Counter/DocumentCounter.java:23-25 | each key counts 1 when it occurs in the array, however often, and 0 otherwise |
| Counting.DocumentCounter.FromCollection | src/FeatureExtraction/Counter/DocumentCounter.java:19-21 | each key counts its occurrences, duplicates included |
| Counting.DocumentCounter.FromDocuments | src/FeatureExtraction/Counter/DocumentCounter.java:27-29 | each key counts the documents that contain it, and the vocabulary is every token |
| Counting.DocumentCounter.UpdateCollection | src/FeatureExtraction/Counter/DocumentCounter.java:31-36 | each count grows by the key's occurrences, duplicates included |
| Counting.DocumentCounter.Update | src/FeatureExtraction/Counter/DocumentCounter.java:38-46 | each count grows by 1 when the key occurs in the array, however often, and by 0 otherwise |
| Counting.DocumentCounter.UpdateAll | src/FeatureExtraction/Counter/Counter.java:52-56 | each count grows by the number of documents that contain the key |
| LegacyCounting.Counter.constructor | src/Counter.java:11-17 | an empty counter |
| LegacyCounting.Counter.WithCapacity | src/Counter.java:15-17 | a negative capacity fails; otherwise an empty counter |
| LegacyCounting.Counter.FromElements | src/Counter.java:19-27 | every element is dropped, so the counter is empty and its size 0 |
| LegacyCounting.Counter.Add | src/Counter.java:29-32 | the key set never changes; a stored key's count grows by 1, every other count stays |
| LegacyCounting.Counter.Update | src/Counter.java:34-42 | the key set never changes; each stored key's count grows by its occurrences |
| LegacyCounting.Counter.Size | src/Counter.java:49-51 | 0 exactly for an empty map |
| FeatureExtraction.InitWord2Idx | src/FeatureExtraction/BOWExtractor.java:20-28 | numbers the vocabulary one to one onto 0..size-1, whatever the iteration order |
| FeatureExtraction.NumberingStep | src/FeatureExtraction/BOWExtractor.java:23-27 | giving a new word the next number keeps the map and the list of numbered words inverse to each other |
| FeatureExtraction.NumberingIsIndexing | src/FeatureExtraction/BOWExtractor.java:20-28 | a map with an inverse list onto 0..n-1 numbers its keys one to one |
| FeatureExtraction.TokensSnoc | src/FeatureExtraction/BOWExtractor.java:30-38 | the tokens of one more document are the old tokens plus that document's |
| FeatureExtraction.GetAllWords | src/FeatureExtraction/BOWExtractor.java:30-38 | exactly the tokens occurring in some document |
| FeatureExtraction.BOWExtractor.constructor | src/FeatureExtraction/BOWExtractor.java:15-18 | the vocabulary is every training token, numbered one to one |
| FeatureExtraction.BOWExtractor.FeatureCount | src/FeatureExtraction/BOWExtractor.java:50-53 | the vocabulary size |
| FeatureExtraction.BOWExtractor.Vectorize | src/FeatureExtraction/BOWExtractor.java:40-48 | a vector of length featureCount storing exactly the indices of known tokens, each 1.0 |
| FeatureExtraction.TermFrequencyGrows | src/FeatureExtraction/TfIdfExtractor.java:71-73 | with an increasing log, a token occurring more often has a larger term frequency |
| FeatureExtraction.RarerWordsWeighMore | src/FeatureExtraction/TfIdfExtractor.java:75-80 | with an increasing log, a word in fewer documents has a larger inverse document frequency |
| FeatureExtraction.TfIdfExtractor.constructor | src/FeatureExtraction/TfIdfExtractor.java:20-24 | document frequencies are the counts of documents holding each token, the vocabulary is numbered one to one, and nDocuments is the document count |
| FeatureExtraction.TfIdfExtractor.FeatureCount | src/FeatureExtraction/TfIdfExtractor.java:41-44 | the number of distinct training tokens |
| FeatureExtraction.TfIdfExtractor.InverseDocFreq | src/FeatureExtraction/TfIdfExtractor.java:75-80 | 0 for a word in no training document, otherwise log(nDocuments / document frequency) |
| FeatureExtraction.TfIdfExtractor.MapToIndices | src/FeatureExtraction/TfIdfExtractor.java:46-52 | fails exactly when some token is outside the vocabulary; otherwise the index of each token, position by position |
| FeatureExtraction.TfIdfExtractor.CalculateTfIdfValues | src/FeatureExtraction/TfIdfExtractor.java:54-69 | value i is the tf * idf of token i, with tf from its count in this document |
| FeatureExtraction.TfIdfExtractor.Vectorize | src/FeatureExtraction/TfIdfExtractor.java:26-39 | fails exactly on a token outside the vocabulary; otherwise stores exactly the tokens' indices, each with that token's tf * idf |
| Evaluation.Counts.Precision | src/Evaluation/ConfusionMatrix.java:46-50 | 0 exactly when tp or fp is 0; never negative on non-negative counters |
| Evaluation.Counts.Recall | src/Evaluation/ConfusionMatrix.java:58-62 | 0 exactly when tp or fn is 0; never negative on non-negative counters |
| Evaluation.Counts.FScore | src/Evaluation/ConfusionMatrix.java:69-76 | 0 exactly when precision or recall is 0 |
| Evaluation.PrecisionIsFraction | src/Evaluation/ConfusionMatrix.java:46-50 | away from the zero cases, precision * (tp + fp) = tp, strictly between 0 and 1 |
| Evaluation.RecallIsFraction | src/Evaluation/ConfusionMatrix.java:58-62 | away from the zero cases, recall * (tp + fn) = tp, strictly between 0 and 1 |
| Evaluation.FScoreBetween | src/Evaluation/ConfusionMatrix.java:69-76 | with positive precision and recall, the F-score lies between them |
| Evaluation.HarmonicMeanBetween | src/Evaluation/ConfusionMatrix.java:75 | the harmonic mean of two positive numbers lies between them |
| Evaluation.FScoreIsF1 | src/Evaluation/ConfusionMatrix.java:46-76 | with tp, fp and fn positive, the F-score is 2tp / (2tp + fp + fn) |
| Evaluation.Counts.IntendedPrecision | src/Evaluation/ConfusionMatrix.java:40-50 | precision as its doc comment describes it: on non-negative counters it lies in [0, 1], is 0 exactly when tp is 0, and is 1 exactly when tp > 0 and fp is 0 |
| Evaluation.Counts.IntendedRecall | src/Evaluation/ConfusionMatrix.java:52-62 | recall as its doc comment describes it: in [0, 1], 0 exactly when tp is 0, 1 exactly when tp > 0 and fn is 0 |
| Evaluation.Counts.IntendedFScore | src/Evaluation/ConfusionMatrix.java:64-76 | the harmonic mean of the documented precision and recall, 0 exactly when tp is 0 |
| Evaluation.PrecisionDisagreement | src/Evaluation/ConfusionMatrix.java:40-50 | on non-negative counters the coded and documented precision agree exactly unless tp > 0 and fp is 0, where the code gives 0 and the documentation 1 |
| Evaluation.RecallDisagreement | src/Evaluation/ConfusionMatrix.java:52-62 | the coded and documented recall agree exactly unless tp > 0 and fn is 0, where the code gives 0 and the documentation 1 |
| Evaluation.PerfectClassifierScores | src/Evaluation/ConfusionMatrix.java:40-76 | with tp > 0 and no fp or fn, the coded precision, recall and F-score are all 0 and the documented ones all 1 |
| Evaluation.HarmonicMeanOfFractions | src/Evaluation/ConfusionMatrix.java:75 | the harmonic mean of t/a and t/b is 2t / (a + b) |
| Evaluation.IntendedFScoreIsF1 | src/Evaluation/ConfusionMatrix.java:40-76 | with a true positive, the documented F-score is 2tp / (2tp + fp + fn), zero fp or fn included |
| Evaluation.Classify | src/Evaluation/ConfusionMatrix.java:183-189 | exactly one counter is 1 and the others 0 |
| Evaluation.TallyStep | src/Evaluation/ConfusionMatrix.java:179-190 | counting one more pair adds its classification |
| Evaluation.TallyCounts | src/Evaluation/ConfusionMatrix.java:178-191 | every counter is non-negative, the four sum to the list length, tp + fp counts the label among the predictions and tp + fn among the gold labels |
| Evaluation.ExampleWithoutFalsePositives | src/Evaluation/ConfusionMatrix.java:46-76 | with tp 2, fn 1 and no fp, precision and F-score are 0 while recall is 2/3 |
| Evaluation.MatchesBounds | src/Evaluation/Evaluator.java:65-76 | the number of matches is at most the number of predictions, and equal to it exactly when the predictions equal the gold labels |
| Evaluation.ConfusionMatrix.constructor | src/Evaluation/ConfusionMatrix.java:19-24 | all four counters 0 |
| Evaluation.ConfusionMatrix.WithCounts | src/Evaluation/ConfusionMatrix.java:33-38 | the four counters as given |
| Evaluation.ConfusionMatrix.SetTp | src/Evaluation/ConfusionMatrix.java:88-90 | changes tp only |
| Evaluation.ConfusionMatrix.IncrementTp | src/Evaluation/ConfusionMatrix.java:95-97 | raises tp by 1 and changes nothing else |
| Evaluation.ConfusionMatrix.SetFp | src/Evaluation/ConfusionMatrix.java:109-111 | changes fp only |
| Evaluation.ConfusionMatrix.IncrementFp | src/Evaluation/ConfusionMatrix.java:116-118 | raises fp by 1 and changes nothing else |
| Evaluation.ConfusionMatrix.SetTn | src/Evaluation/ConfusionMatrix.java:130-132 | changes tn only |
| Evaluation.ConfusionMatrix.IncrementTn | src/Evaluation/ConfusionMatrix.java:137-139 | raises tn by 1 and changes nothing else |
| Evaluation.ConfusionMatrix.SetFn | src/Evaluation/ConfusionMatrix.java:151-153 | changes fn only |
| Evaluation.ConfusionMatrix.IncrementFn | src/Evaluation/ConfusionMatrix.java:158-160 | raises fn by 1 and changes nothing else |
| Evaluation.ConfusionMatrix.Add | src/Evaluation/Evaluator.java:106-108 | counter-wise addition of another matrix, which may be this one |
| Evaluation.ConfusionMatrix.InitFromPredictions | src/Evaluation/ConfusionMatrix.java:175-192 | fails exactly on lists of unequal length; otherwise the tally of every pair against the target class |
| Evaluation.Scores.constructor | src/Evaluation/Scores.java:6-10 | stores the three scores as given |
| Evaluation.Scores.Zero | src/Evaluation/Scores.java:12-14 | all three scores 0 |
| Evaluation.Scores.SetPrecision | src/Evaluation/Scores.java:20-22 | changes precision only |
| Evaluation.Scores.SetRecall | src/Evaluation/Scores.java:28-30 | changes recall only |
| Evaluation.Scores.SetFscore | src/Evaluation/Scores.java:36-38 | changes the F-score only |
| Evaluation.CountsOf | src/Evaluation/Evaluator.java:89-94 | the counters of each matrix, in order |
| Evaluation.ScoresBounded | src/Evaluation/ConfusionMatrix.java:46-76 | on non-negative counters all three scores are defined and lie in [0, 1] |
| Evaluation.ScoreSumBounded | src/Evaluation/Evaluator.java:85-101 | on non-negative counters every score sum lies between 0 and the number of matrices, so every macro average lies in [0, 1] |
| Evaluation.ScoreSumStep | src/Evaluation/Evaluator.java:89-94 | one more matrix adds its score to the running sum |
| Evaluation.CalculateMacroAverages | src/Evaluation/Evaluator.java:85-101 | each average is the sum of that score over the matrices divided by their number; no matrix changes |
| Evaluation.CountsSumStep | src/Evaluation/Evaluator.java:106-108 | one more matrix adds its counters to the running total |
| Evaluation.AddAll | src/Evaluation/Evaluator.java:104-108 | a new matrix holding the counter-wise sum of all the matrices |
| Evaluation.CalculateMicroAverages | src/Evaluation/Evaluator.java:103-115 | the precision, recall and F-score of the counter-wise sum of the matrices; no matrix changes |
| Evaluation.CountsAlong | src/Evaluation/Evaluator.java:77-83 | the counts of the labels in the given order, position by position |
| Evaluation.ScoreSumAlong | src/Evaluation/Evaluator.java:77-79 | visiting distinct labels in any order sums the scores of exactly those labels |
| Evaluation.CountsSumAlong | src/Evaluation/Evaluator.java:81-83 | visiting distinct labels in any order totals the counts of exactly those labels |
| Evaluation.ScoreSumOrderIndependent | src/Evaluation/Evaluator.java:77-79 | a score summed along any enumeration of all labels is the sum over the label map |
| Evaluation.CountsSumOrderIndependent | src/Evaluation/Evaluator.java:81-83 | counts totalled along any enumeration of all labels are the total over the label map |
| Evaluation.CountsTotalRemove | src/Evaluation/Evaluator.java:103-108 | the total of the label counts is one label's counts plus the total of the rest, whichever label is taken out |
| Evaluation.CountsTotalNonNegative | src/Evaluation/Evaluator.java:103-108 | a total of non-negative counts is non-negative |
| Evaluation.DistinctCardinality | src/Evaluation/Evaluator.java:77-83 | listing distinct labels gives as many entries as labels |
| Evaluation.Evaluator.LabelCounts | src/Evaluation/Evaluator.java:14 | has a key for exactly the labels that have a matrix |
| Evaluation.Evaluator.constructor | src/Evaluation/Evaluator.java:16-19 | stores both lists with no matrices yet |
| Evaluation.Evaluator.Create | src/Evaluation/Evaluator.java:16-21 | fails exactly for a non-empty label set with lists of unequal length; otherwise one matrix per given label, each the tally of that label |
| Evaluation.Evaluator.CreateForAll | src/Evaluation/Evaluator.java:30-39 | fails exactly on lists of unequal length; otherwise one matrix for each label seen in either list, each the tally of that label |
| Evaluation.Evaluator.InitClassMatrices | src/Evaluation/Evaluator.java:41-47 | the first label fails on unequal lists with nothing stored; otherwise every label gets its tally matrix |
| Evaluation.Evaluator.GetAccuracy | src/Evaluation/Evaluator.java:65-76 | the number of positions where prediction and gold agree, divided by the number of predictions; a shorter gold list fails |
| Evaluation.Evaluator.ScoresDefined | src/Evaluation/Evaluator.java:41-47 | for a built evaluator, every label's scores and the scores of the total are defined |
| Evaluation.Evaluator.GetMacroAverages | src/Evaluation/Evaluator.java:77-79 | each average is the sum of that score over all labels divided by the number of labels, whatever the map's iteration order |
| Evaluation.Evaluator.GetMicroAverages | src/Evaluation/Evaluator.java:81-83 | the scores of the counter-wise total over all labels, whatever the map's iteration order |
| Evaluation.Evaluator.Values | src/Evaluation/Evaluator.java:78 | the stored matrices, each once, in some enumeration of the labels; nothing changes |

## Left out

- `FeatureVector.cosineSimilarity` (src/Vectors/FeatureVector.java:20-32): it needs a square root, and floating point is not modelled.
- The non-mutating scalar overloads of `FeatureVector` (`addition(int)`, `subtract(int)` and others) only forward to abstract methods. Each concrete class's own versions are modelled instead.
- `isCompressed`, `changeState` on `SparseFeatureVector` (it returns null), `toString`, and the collection plumbing are not modelled. The plumbing covers `toArray`, `add`, `remove`, `addAll`, `removeAll`, `retainAll`, `contains` and `containsAll`; it either throws an unsupported-operation error or returns a constant.
- The null-returning stubs of `CompressedFeatureVector` are not modelled: `addition(double)`, `subtract`, `divide(FeatureVector)` and `pow`. Neither are the null-returning `multiply`/`divide`/`pow`, the constant `sum`/`product` of `SparseFeatureVector`, or `SparseFeatureVector.add(CompressedFeatureVector)`, which calls a method that does not exist.
- `CompressedFeatureVector.nonZeros` and `isEmpty` only return the key set or `false`.
- `WeightVector` is its own class with the dense array and the bias. It does not inherit `SparseFeatureVector`'s operations.
- Vectors.CompressedFeatureVector.DotSparse: a `WeightVector` operand is not a separate member; it inherits the stub `get` of `SparseFeatureVector`, so it gives the same result. The same holds for `AdditionSparse` and `MultiplySparse`.
- Vectors.CompressedFeatureVector.Update: the map is copied as a value; later writes through one vector are not seen by the other, whereas Java shares one `HashMap` between the two.
- `FeatureMatrix` iteration is not modelled.
- Randomness: `FeatureMatrix.RandomInitialize` takes the random rows as a parameter. The vector-level random initializers it calls are not part of this model.
- `Math.log` and `Math.pow` are parameters. NaN and infinities do not exist over reals, so the divisions below require non-zero divisors where Java would produce infinities or NaN.
- FeatureVectors.FeatureVector.DivideInPlace: requires every coordinate of the divisor to be non-zero.
- FeatureVectors.FeatureVector.DivideInPlaceScalar: requires a non-zero scalar.
- FeatureVectors.FeatureVector.DivideInPlaceInt: requires a non-zero scalar.
- FeatureMatrices.FeatureMatrix.DivideScalar: requires a non-zero scalar.
- FeatureMatrices.FeatureMatrix.DivideVector: requires every coordinate of the divisor to be non-zero.
- Evaluation.Counts.Precision: requires its division to be by a non-zero number, which always holds on non-negative counters (`ScoresBounded`).
- Evaluation.Counts.Recall: the same requirement as precision.
- Evaluation.Counts.FScore: requires precision and recall to be defined and not to sum to 0 unless both are 0.
- Evaluation.Evaluator.GetAccuracy: requires at least one prediction, because Java's 0/0 gives NaN.
- Evaluation.CalculateMacroAverages: requires at least one matrix, because Java's 0/0 gives NaN.
- Evaluation.Evaluator.GetMacroAverages: requires at least one label, for the same reason.
- Evaluation.Evaluator.GetMicroAverages: requires the total's scores to be defined, which `ScoresDefined` proves for every built evaluator.
- Integer width: apart from the `(int)` cast in `FeatureVector.sum`, which is clamped, counts and indices are unbounded, with no 32-bit wrap-around. Lengths are `nat`, so a negative array size cannot be expressed. The exception is `FeatureMatrix.randomInitialize`, whose `length < 0` check is modelled.
- Aliasing: the broadcast matrix operations require rows with distinct storage and an operand that is not a row. Rows sharing an array would be updated more than once.
- FeatureVectors.FeatureVector.PowInPlace: requires the operand to be at least as long as the receiver, where Java would fail part-way on a shorter operand.
- FeatureMatrices.FeatureMatrix.PowVector: the same requirement on the operand.
- Hash iteration order is left open. `InitWord2Idx` is proved to produce a one-to-one numbering for every order, but not the particular numbering a `HashMap` gives.
- FeatureExtraction.TfIdfExtractor.CalculateTfIdfValues returns the values as a sequence instead of filling a `double[]` in place.
- The `int` capacity constructor of `DocumentCounter` only forwards to the base class, like `Counting.Counter.WithCapacity`. It is not repeated.
- `Counter.iterator`, `Scores.toString` and the getters of `Scores`, `Evaluator` and `ConfusionMatrix` are not modelled as methods; their fields are read directly.
- `ConfusionMatrix.add` is called in `Evaluator.calculateMicroAverages` but does not exist in `ConfusionMatrix.java`. It is modelled as counter-wise addition.

## Findings

| source | as written | input that shows it | evidently intended | confidence | as-written member | corrected member |
|---|---|---|---|---|---|---|
| src/Evaluation/ConfusionMatrix.java:46-50 | `precision` returns 0 when `tp == 0 \|\| fp == 0` | tp = 2, fp = 0: returns 0.0 | tp / (tp + fp), 0 only when tp + fp is 0, as the doc comment at lines 40-44 describes; here 1.0 | high, not executed | Evaluation.Counts.Precision, Evaluation.PrecisionDisagreement | Evaluation.Counts.IntendedPrecision, Evaluation.PerfectClassifierScores |
| src/Evaluation/ConfusionMatrix.java:58-62 | `recall` returns 0 when `tp == 0 \|\| fn == 0` | tp = 2, fn = 0: returns 0.0 | tp / (tp + fn), 0 only when tp + fn is 0, as the doc comment at lines 52-56 describes; here 1.0 | high, not executed | Evaluation.Counts.Recall, Evaluation.RecallDisagreement | Evaluation.Counts.IntendedRecall, Evaluation.IntendedFScoreIsF1 |

The evaluator's averages keep the scores as coded, since those are what the
program computes; the documented scores are proved about on their own.

/** Tensors as nodes of the TensorFlow graph that the code builds.  Each
    constructor stands for one TensorFlow or tf.Transform operation whose
    numerics are outside the model, so two tensors are equal exactly when they
    are the same operation applied to the same operands. */
module Tensors {

  datatype Tensor =
      /** a raw feature tensor as handed to the transform callback, named by its key */
    | Feature(name: string)
      /** tf.sparse.to_dense */
    | ToDense(sparse: Tensor)
      /** tft.scale_to_z_score */
    | ScaleToZScore(unscaled: Tensor)
      /** tf.cast(create_time_coordinate(name, timestamp), tf.float32): the sine or
          cosine of the timestamp for the period that `name` selects */
    | TimeCoordinate(name: string, timestamp: Tensor)
      /** tf.stack(parts, axis=-1) */
    | StackLastAxis(parts: seq<Tensor>)
      /** tf.reshape(t, [-1, timesteps, width]) */
    | Reshape(reshaped: Tensor, timesteps: int, width: int)
}
